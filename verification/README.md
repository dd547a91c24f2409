# gnyproxy: a verified model

gnyproxy is a transcoding HTTP proxy made of byte-level state machines that can stop and resume at
any byte. This project models its four layers in Dafny and proves what each of them promises over
whole runs: every way of filling a message, of interleaving the printers with the sockets, of cutting
the byte streams into reads and of choosing among connections.

| module | what it models |
|---|---|
| `Basics`, `Octets`, `Common`, `Http` | an optional value; bytes, C strings, `strcasecmp`; trimming, percent coding, tokens, numerals; the name tables and their binary search |
| `Messages`, `MessageCopier` | the `http_message` mailbox and the staged copy between two of them |
| `Sockets` | a socket as two byte streams of which each call moves an arbitrary prefix |
| `GnyFormat`, `GnyText`, `GnySink`, `GnySource` | the GNY format, a grammar of the texts that are read and what they mean, its streaming printer and its resumable reader |
| `Http11Format`, `Http11Text`, `Http11Sink`, `Http11Source` | the same for HTTP/1.1 with the framings of sections 3.3.3 and 4.1 of RFC 7230 |
| `Http11Wire`, `Http11Lengths`, `Transcoding` | the bytes that the HTTP/1.1 printer sends; what becomes of announced lengths; one hop from end to end in either format, and HTTP/1.1 to GNY and back |
| `MuxFormat`, `MuxModel`, `MuxRuns`, `Multiconn` | the multiplexing layer: the stream, the state and its events, theorems over runs, the class |
| `Codecs` | the two formats side by side, so that the connections below hold for either |
| `Pipeline`, `ProxyLinker`, `HttpServer` | what is common to connections that answer requests in order; the client side of the proxy; the server |
| `ReqLinkers`, `Requester` | the upstream side: one connection used for one request after the other, and the pool of them |
| `Relay` | the whole proxy: the client side, the pool upstream, and a copier between them for every request that the pool accepts |

Each component has a specification on values (a one-byte parser, an encoding, a state with events) and
a class or method in the source's own form, with its fields and loops, whose contracts tie every call
to that specification. What the specification itself decides is said once more without it, from outside: the texts of
each format by a grammar and a meaning (`ReadsText`), the printed bytes by their spelling (`SentIsSpelled`), the choices
of the pool, of the host and of the queue by what they leave behind (`IdleFirst`, `RoomNext`, `MadeIff`, `HostFound`,
`NothingLeftBehind`). The theorems are about runs of the specification. The classes of the connections
(`ALinker`, `EntityLinker`, `Requester`) have its poll (`GetWriteSize`), write and read events as methods,
and their messages are values in an indexed store; what other code does to those messages between the calls
(the events `PassOn` and `Respond`, what a generator or a processor takes and adds) has no method there, but
a parameter or an event. `Relay` joins the specifications and has no class of its own. What is added to an
object only for the proofs (everything ever put into a mailbox, everything sent) is ghost.

The code is modelled as it is. Where it falls short of what its comments or its format promise, a
lemma gives the exact condition under which it keeps the promise, and where it helps a concrete input:

- The GNY reader does not rebase the remembered start of an unknown header's value
  (`message_source_gny.cpp:93`, `message_source_gny.cpp:151-154`): a read that takes in such a header's flag as its
  p-th buffered byte and ends inside its value makes the value lose its first p bytes (`ReadAgreesIff`, `SkewedValue`,
  `CutLosesPrefix`, `CutCounterexample`). The boundaries of messages, the number of headers and their names come out
  right all the same (`SessionKeepsPlace`, `SessionsKeepPlace`), so what is said below of places, order and consumption
  holds for every cutting, and only what is said of values asks for reads that do not do this. When the remembered start
  is behind the value, what follows the value is delivered in its place (`SkewedPast`); when it is beyond the buffer
  (`LostExample`), the program copies from outside it, and nothing is said. An HTTP/1.1 reader minds no cutting.
- The verb table is not sorted, so POST, PUT and OPTIONS are not found (`VerbCodeRoundTrip`). A request with such a
  verb is not passed on, wherever it asks to go, but answered with 400 (`http_proxy.cpp:212`, `http_proxy.cpp:285-289`,
  `HostlessOrUnfoundRefused`), and that answer holds up all that follow it (`RefusedBlocks`).
- `is_hex` takes all of `'A'` to `'f'` for digits (`common.cpp:25`). A URL is decoded as it should be exactly when no
  escape in it has a byte from `'G'` to `` '`' `` (`DecodedRightIff`, `FalseEscapeExample`), and a chunk size is
  understood exactly when no such byte is before its extension or line end (`ChunkSizeRightIff`,
  `MisreadSizeExample`). What the program prints itself is read back (`UrlRoundTrip`, `RunHex`).
- A status that is 65535 modulo 65536 is never sent in GNY (`SilentUnlessReady`, `StatusSurvivesIff`), and a status of
  -1 in neither format. A response with such a status and without headers or entity, as a peer may send it
  ("HTTP/1.1 -1 X" and a blank line), is over at once without a byte having been written
  (`http_proxy.cpp:172-178`, `http_server.cpp:44-49`), and the client takes the next response for it. The client's
  messages are in the place of their requests exactly when every response that is over was ready
  (`AnswersInOrderIff`, `ClientReadsInOrder`, `OutOfPlace`, `UnreadyExample`).
- On a content length out of range the HTTP/1.1 reader keeps the end of the range, the printer ignores
  the header. The two draw the same framing from a message exactly when its first length is not out of range, or
  chunks are asked for, or nothing else is announced and there is an entity, which then goes out in chunks, or a
  later length is that very number (`FramingAgreesIff`). The size of a chunk is printed as a 32-bit number
  (`SizeSurvivesIff`).
- A message that announces a length goes out with that length and whatever entity it has, so it is read back as one
  message exactly when the length is right (`LengthMustBeRight`). A message that comes in chunks and announces a
  wrong length as well is stripped of its request for chunks on the way, and then cannot be read
  (`ThroughTwoProxies`, `WrongLengthExample`).
- `Multiconn` forgets to clear a mark when a queued connection turns out to have nothing to write; that
  connection is never served again. Over any run the marks are exact exactly when no poll has found such a connection
  (`MarksExactIff`, `LostIff`, `LostForever`, `LossExample`).
- If a socket takes or gives one of the two size bytes of a frame and is then ready for more,
  `Multiconn` goes on with the data before the other size byte (`multiconn.cpp:89-96`,
  `multiconn.cpp:127-134`). Such a slip destroys the stream exactly when data moves in it
  (`SlipWriteIff`, `SlipDataIff`, `SlipExample`, `SlipReadExample`); the theorems about streams are about runs without
  slips. When the size byte that has come in is zero no data moves and the stream stays whole, but `read` returns 0
  (`multiconn.cpp:96-98`), which the poll loops take for the end of the connection.
- The proxy answers a request it cannot pass on itself, but waits for somebody to take that request
  before it goes on to the next response; nobody does. Once the first request and its response are complete, the
  response can get over exactly when upstream has accepted the request or the request holds nothing
  (`CanFinishIff`, `RefusedBlocks`, `RefusedExample`).
- HTTP/1.1 carries footers only behind chunks, so transcoding keeps them exactly when the message has an
  entity and no content length (`TranscodedIff`).

## Model

| member | source | states |
|---|---|---|
| Octets.CompareTransitive | http.cpp:36 | the case-insensitive comparison is an order, so that a table can be sorted by it |
| Octets.NamesFolded | message_sink_11.cpp:73-81 | a field names a header whatever its case: equal up to case means the same outcome of every name test |
| Common.Trim | common.cpp:14-20 | the two loops compute the trimmed string: the string without some white space at its ends, of which none is left |
| Common.TrimmedLongest | common.cpp:14-20 | no part of the string without white space at either end is longer |
| Common.IToHex | common.cpp:22-35 | a digit below 16 is printed as a character that is recognised and read back as the same digit |
| Common.DigitsRead | common.cpp:22-35 | the sixteen digits are printed in lower case and read in either |
| Common.UrlEncode | common.cpp:37-51 | the loop computes the escaped form byte by byte (`EncodedOctet`), which `EncodedPlainIff`, `EncodedLength` and `UrlRoundTrip` pin down |
| Common.EncodedPlainIff | common.cpp:37-51 | a URL stands for itself if and only if it has no per cent sign and no white space |
| Common.EncodedLength | common.cpp:37-51 | each per cent sign and each white-space byte costs two bytes more, and nothing else does |
| Common.EncodedJoin | common.cpp:37-51 | what stands for a part of a URL does not depend on the rest |
| Common.UrlDecode | common.cpp:53-68 | the loop computes the decoded form, leaving a per cent sign that is not followed by two digits alone |
| Common.UrlRoundTrip | common.cpp:37-68 | decoding undoes encoding for every byte string (section 2.1 of RFC 3986) |
| Common.DecodedRightIff | common.cpp:24-68 | the decoder gives what section 2.1 of RFC 3986 says exactly when no escape that it takes has a byte that only passes for a digit |
| Common.FalseEscapeExample | common.cpp:53-68 | "%G0" is decoded to a NUL instead of being left alone |
| Common.TokenBetween | message_source_11.cpp:38-43 | a word set off by a space is what the next call for a token returns, with the position behind it, so an encoded URL is recovered as the second token of a request line |
| Common.TokenAfter | message_source_11.cpp:38-43 | any white space in front of a word is passed over, and the word ends at the next white space or at the end of the line |
| Common.GetToken | message_source_11.cpp:38-43 | the two loops find the next token and the position after it |
| Common.DecRoundTrip | message_sink_11.cpp:58-61 | a printed status of 32 bits is read back as the same number by the reader's conversion |
| Common.DecShortest | message_sink_11.cpp:58-61 | a status is printed without zeros in front |
| Common.HexShortest | message_sink_11.cpp:114-117 | a chunk size is printed without zeros in front, in lower case |
| Common.NumeralMeans | message_source_11.cpp:86-93 | a content length is read as white space, a sign, digits and anything behind them: the number the digits stand for, or the end of the range of a long that it is beyond; zero without digits |
| Common.ShortRoundTrip | common.cpp:121-131 | the first of two bytes counts 256 times, for the writer as for the reader, and they carry a number modulo 65536 |
| Http.StringBinSearch | http.cpp:30-44 | the loop computes the search function on any table, sorted or not, and terminates |
| Http.SearchComplete | http.cpp:30-44 | on a strictly sorted table the search finds an entry exactly when the key equals it up to case |
| Http.HeaderTableSorted | http.cpp:58-112 | the header table has 53 names in strictly increasing order |
| Http.HeaderLookup | http.cpp:15-20 | a key gets a code exactly when it is the name with that code up to case |
| Http.HeaderCodeRoundTrip | http.cpp:15-28 | looking up the name of any known code gives that code |
| Http.CanonFolds | message_sink_gny.cpp:97-105 | compressing and expanding a name folds the case of known names, leaves unknown ones alone, and does nothing the second time |
| Http.VerbCodeRoundTrip | http.cpp:9-56 | a verb's own name is found exactly for the codes other than those of POST, PUT and OPTIONS, whose names are not found at all |
| Messages.FillKeepsBacklog | http_message.cpp:10-38 | whatever is added to a mailbox goes behind what it holds, and changes nothing that has left it |
| Messages.HttpMessage.constructor | http_message.h:47-49 | a new mailbox holds nothing and nothing has been put into it |
| Messages.HttpMessage.AddHeader | http_message.cpp:10-13 | in the header stage a pair goes behind the others; nothing else changes |
| Messages.HttpMessage.AppendEntity | http_message.cpp:15-18 | in the entity stage bytes go behind those held; nothing else changes |
| Messages.HttpMessage.AddFooter | http_message.cpp:20-23 | in the footer stage a pair goes behind the others; nothing else changes |
| Messages.HttpMessage.EndHeader | http_message.cpp:25-28 | moves from the header stage to the entity stage and keeps the contents |
| Messages.HttpMessage.EndEntity | http_message.cpp:30-33 | from a stage up to the entity stage, moves to the footer stage and keeps the contents |
| Messages.HttpMessage.EndFooter | http_message.cpp:35-38 | from a stage up to the footer stage, completes the message and keeps the contents |
| Messages.HttpMessage.GetHeaders | http_message.h:96-99 | hands over all headers held and leaves none; the account of everything added does not change |
| Messages.HttpMessage.GetEntity | http_message.h:80-83 | hands over all entity bytes held and leaves none; the account of everything added does not change |
| Messages.HttpMessage.GetFooters | http_message.h:103-106 | hands over all footers held and leaves none; the account of everything added does not change |
| Messages.SentIff | http_message.h:112-115 | a mailbox is sent exactly when its message is complete and everything ever put into it has left |
| Messages.HttpMessage.IsSent | http_message.h:112-115 | true exactly when the message is complete and what has left the mailbox is all that was ever put into it |
| Messages.FilledToTransitive | http_message.cpp:10-38 | legal additions one after the other are legal additions |
| MessageCopier.RunConserves | http_proxy.cpp:43-79 | over any interleaving of source fills, copies and destination drains, what was put into the source is what was put into the destination followed by what the source still holds, part by part and in order |
| MessageCopier.CopyFills | http_proxy.cpp:43-79 | a copy never fails a stage assertion and never changes a start line that is complete |
| MessageCopier.CopyCatchesUp | http_proxy.cpp:43-79 | right after a copy the stages are equal and nothing is missing from the destination, and copying again changes nothing |
| MessageCopier.CopyBySteps | http_proxy.cpp:45-78 | the four parts of the copy, each guarded by the destination's stage, together move exactly what both stages allow |
| MessageCopier.MessageCopier.DumpMessage | http_proxy.cpp:43-79 | the method does to two mailboxes what the copy event does, and leaves them in step |
| MessageCopier.MessageCopier.GenerateRequest | http_proxy.cpp:34-36 | brings the outgoing request in step with the incoming one |
| MessageCopier.MessageCopier.ReadResponse | http_proxy.cpp:38-40 | brings the outgoing response in step with the incoming one |
| GnyFormat.RunPairs | message_source_gny.cpp:73-118 | parsing encoded headers delivers them in order with canonical names |
| GnyFormat.PairSurvivesIff | message_sink_gny.cpp:97-105 | a header comes back, up to its canonical name, exactly when its value and, if it is sent, its name are free of NUL |
| GnyFormat.PairLength | message_sink_gny.cpp:97-105 | a name in the table goes out as its code alone, any other spelled out as well |
| GnyFormat.RunChunks | message_source_gny.cpp:119-140 | parsing the chunks of an entity of any length delivers exactly that entity |
| GnyFormat.ChunkOverhead | message_sink_gny.cpp:71-76 | the chunk loop costs two bytes for each 65535 bytes of entity begun |
| GnyFormat.RunExtends | message_source_gny.cpp:47-142 | parsing only ever adds to a message, and every name and value it delivers is free of NUL |
| GnyFormat.RunFills | message_source_gny.cpp:47-142 | whatever bytes a reader is given, what it adds to its message respects the stages and leaves a complete start line alone, so it is a filling that the printers allow for |
| GnySink.UpdateFaithful | message_sink_gny.cpp:34-95 | one look for more to print keeps what has been emitted equal, once parsed, to what has been drained |
| GnySink.UpdateLevels | message_sink_gny.cpp:34-95 | after a look the printer has caught up with the message's stage and everything that can be drained is drained; a message that is not ready is left alone |
| GnySink.FillFaithful | http_message.cpp:10-38 | filling a message that is being printed keeps the printer faithful |
| GnySink.RunSound | message_sink_gny.cpp:18-95 | over every interleaving of filling, looking and sending whose message ends up free of NUL the printer stays faithful and bytes sent are never taken back |
| GnySink.PrintedDecodes | message_sink_gny.cpp:34-105 | however a message is filled, drained and sent, the bytes emitted for it parse to it, and no shorter prefix ends a message |
| GnySink.SilentUnlessReady | message_sink_gny.cpp:38-55 | a run emits something if and only if its message is a request with a URL and a verb of the table, or a response whose status is not 65535 modulo 65536 |
| GnySink.StatusSurvivesIff | message_sink_gny.cpp:48-52 | a status is sent and comes back unchanged exactly when it is between 0 and 65534 |
| GnySink.MessageSinkGny.AddKeyValuePair | message_sink_gny.cpp:97-105 | appends the encoding of one header |
| GnySink.MessageSinkGny.AddChunks | message_sink_gny.cpp:71-76 | the loop appends the encoding of the entity as chunks of at most 65535 bytes |
| GnySink.MessageSinkGny.CheckForUpdate | message_sink_gny.cpp:34-95 | the fields and the message change as one look says, nothing added is lost, and the printer stays faithful |
| GnySink.MessageSinkGny.GetWriteSize | message_sink_gny.cpp:18-21 | looks and returns how much there is to send |
| GnySink.MessageSinkGny.Write | message_sink_gny.cpp:23-30 | looks, hands a prefix of what is printed to the socket within the limit, drops exactly that prefix and stays faithful |
| GnySource.ReadAgreesIff | message_source_gny.cpp:44-155 | a read that starts in step with the one-byte parser ends in step with it exactly when it does not cut the value of an unknown header that it began |
| GnySource.SkewedValue | message_source_gny.cpp:93-104 | a value whose remembered start is p bytes too far in is delivered without its first p bytes |
| GnySource.SkewedPast | message_source_gny.cpp:93-104 | a value whose remembered start is behind its end is delivered as the beginning of what follows it in the buffer; of one whose start is beyond the buffer nothing is said |
| GnySource.CutLosesPrefix | message_source_gny.cpp:90-104 | an unknown header whose flag is the p-th byte of the buffer, cut inside its value, arrives without the first p bytes of the value |
| GnySource.CutCounterexample | message_source_gny.cpp:151-154 | a response with the header "x: ab", read from its status on and cut after the a, is read with "x: b" |
| GnySource.ScanFills | message_source_gny.cpp:47-142 | the real reader too, wherever it is cut, fills its message legally |
| GnySource.SessionReadsMessage | message_source_gny.cpp:37-156 | any sequence of reads without such a cut that reaches the end of a message leaves the reader with just what the one-byte parser makes of it |
| GnySource.SessionKeepsPlace | message_source_gny.cpp:37-156 | any sequence of reads that reaches the end of a message, cut anywhere, takes from the stream its bytes and no other and leaves the reader at its end, with as many headers and footers as the one-byte parser, of the same names, unless a remembered start runs beyond the buffer |
| GnySource.SessionsRecoverAll | message_source_gny.cpp:148-149 | without such a cut successive fresh readers recover the messages of a stream, values included |
| GnySource.SessionsKeepPlace | message_source_gny.cpp:148-149 | wherever the stream is cut, successive fresh readers divide it into its messages, with nothing lost or read twice |
| GnySource.LostExample | message_source_gny.cpp:90-104 | a response with the empty header "x:", read from its first byte on and cut before the terminator: the remembered start is beyond the buffer |
| GnySource.MessageSourceGny.Accept | message_source_gny.cpp:49-141 | the body of the loop does to the fields what one byte does to the reader's state |
| GnySource.MessageSourceGny.ScanBuffer | message_source_gny.cpp:47-142 | the loop takes in the new bytes up to the end of the message and no further |
| GnySource.MessageSourceGny.Settle | message_source_gny.cpp:143-154 | entity bytes seen are delivered and the buffer is rebased, which shifts the remembered start of an unknown value |
| GnySource.MessageSourceGny.Read | message_source_gny.cpp:37-156 | one call with any chunk changes the reader's state and consumes bytes exactly as specified, and afterwards every entity byte seen has been delivered |
| GnyText.RunField | message_source_gny.cpp:73-118 | a field with a code means its name in the table, one with the code of unknown names means the name spelled out |
| GnyText.ReadsText | message_source_gny.cpp:37-156 | any text of the format, made of a verb and URL or a status, fields, chunks of any sizes and footers, is read as the message that the grammar says it means, and the reader stops at its last byte and not before |
| Http11Format.ModesAgreeIff | message_source_11.cpp:80-93 | reader and printer draw the same framing from one header exactly when it is not the first content length and out of range |
| Http11Format.AllModesAgreeIff | message_sink_11.cpp:71-95 | they draw the same framing from a list of headers exactly when its first length is not out of range, or chunks are asked for, or a later length is the end of the range |
| Http11Format.DroppedIff | message_source_11.cpp:80-98 | six names, in any case, are those of fields that are not passed on |
| Http11Format.FieldSurvivesIff | message_source_11.cpp:71-78 | the text of a field splits back into it exactly when the name is trimmed and without a colon and the value is trimmed |
| Http11Format.RequestLineRoundTrip | message_source_11.cpp:45-53 | the verb and the URL of a printed request line are its first two tokens again, for every URL that is not empty |
| Http11Format.RunStartText | message_sink_11.cpp:48-62 | a printed start line is parsed back: status, URL after percent decoding, and verb as its name is looked up |
| Http11Format.RunHeaders | message_source_11.cpp:71-103 | parsing printed headers delivers those that are not hop-by-hop in order and works out their framing |
| Http11Format.RunFooters | message_source_11.cpp:105-114 | parsing printed footers delivers all of them in order |
| Http11Format.RunHex | message_source_11.cpp:176-178 | the shift-and-or accumulator inverts lower-case hexadecimal printing |
| Http11Format.SizeSurvivesIff | message_sink_11.cpp:114-117 | a printed chunk size is read back unchanged exactly below 2^32 |
| Http11Format.ChunkSizeRightIff | message_source_11.cpp:175-190 | a chunk size is understood as section 4.1 of RFC 7230 says exactly when no byte before its extension or line end only passes for a digit |
| Http11Format.MisreadSizeExample | message_source_11.cpp:175-190 | "1G" is taken for 16 bytes instead of 1 |
| Http11Format.RunChunk | message_source_11.cpp:174-208 | a printed chunk is parsed to its data, whatever bytes that contains (section 4.1 of RFC 7230) |
| Http11Format.RunFixed | message_source_11.cpp:165-173 | an entity of announced length is taken in whole and ends the message at its last byte |
| Http11Format.RunFills | message_source_11.cpp:130-228 | whatever bytes a reader is given, what it adds to its message respects the stages and leaves a complete start line alone |
| Http11Text.RunBlankLines | message_source_11.cpp:133-145 | blank lines in front of a message are passed over |
| Http11Text.RunStartLine | message_source_11.cpp:45-69 | a first line of words set apart by any white space means the verb with the name of the first and the URL that the second decodes to, or the status that the second is a numeral of |
| Http11Text.RunAnyHeaders | message_source_11.cpp:71-103 | header lines with any white space around name and value, ended by CR LF or LF, deliver the fields that are not hop-by-hop in order, and all of them count for the framing; a line without a colon says nothing |
| Http11Text.ModesMean | message_source_11.cpp:80-93 | chunks win over any length wherever they are asked for, and otherwise the first content length counts |
| Http11Text.RunSizeWithExtension | message_source_11.cpp:175-201 | a printed chunk size means the same whatever extension is behind it: that many bytes of data, or the trailer if it is zero |
| Http11Text.RunAnyChunk | message_source_11.cpp:175-208 | a chunk, with or without an extension (section 4.1.1 of RFC 7230), delivers its data, and what is between the data and the line end is passed over |
| Http11Text.ReadsText | message_source_11.cpp:121-245 | any text of the format, made of blank lines, a first line, header lines and an entity that is chunked, of a length, or absent as the headers say, is read as the message that the grammar says it means, and the reader stops at its last byte and not before |
| Http11Sink.UpdateFaithful | message_sink_11.cpp:45-164 | one look for more to print keeps the parse of what has been emitted equal to what has been drained, in every framing |
| Http11Sink.UpdateLevels | message_sink_11.cpp:45-164 | after a look the printer has caught up with the message's stage and everything that can be drained is drained |
| Http11Sink.RunFirstChunk | message_sink_11.cpp:110-120 | an entity that turns up unannounced is announced as chunked and parsed back |
| Http11Sink.FramingAgreesIff | message_sink_11.cpp:71-120 | the reader of a whole message frames its entity as the printer did exactly when the first length is not out of range, or chunks are asked for, or the printer asks for them itself, or a later length is the end of the range |
| Http11Sink.DropFooters | message_sink_11.cpp:140-155 | footers behind an entity that is not chunked are dropped and leave what has been emitted well formed |
| Http11Sink.SafeThroughout | message_sink_11.cpp:45-164 | in a run whose message ends up fit for HTTP/1.1, whatever was there of it before was fit too |
| Http11Sink.RunSound | message_sink_11.cpp:45-164 | over every interleaving of filling, looking and sending whose message ends up fit for HTTP/1.1 the printer stays faithful and bytes sent are never taken back |
| Http11Sink.PrintedParses | message_sink_11.cpp:45-164 | however a message is filled, drained and sent, the bytes emitted parse to it without hop-by-hop headers, and without footers unless it is chunked, and no shorter prefix ends a message |
| Http11Wire.SentIsSpelled | message_sink_11.cpp:45-164 | under any schedule the bytes sent are none before the start line is known, and then the text of what has been taken of the message: start line, headers, the entity in non-empty batches, each a chunk if the message is chunked, last chunk and footers |
| Http11Wire.RequestLineLooks | message_sink_11.cpp:48-57 | the request line has the URL as it is if that has no per cent sign and no white space |
| Http11Wire.StatusLineExample | message_sink_11.cpp:58-63 | what the status line of a response with status 200 looks like |
| Http11Wire.FieldAndChunkExample | message_sink_11.cpp:91-120 | what a field, a chunk and the announcement of chunks look like |
| Http11Lengths.LengthMustBeRight | message_sink_11.cpp:121-134 | under any schedule a message that announces a length is read back as one whole message exactly when its entity is that long, and never with a length below zero |
| Http11Lengths.SentPlain | message_sink_11.cpp:121-134 | under any schedule a message that announces a length goes out as its headers and its entity, whatever the length of that |
| Http11Sink.MessageSink11.AddHeaders | message_sink_11.cpp:71-95 | the loop appends the text of the headers and leaves the framing they ask for |
| Http11Sink.MessageSink11.CheckForUpdate | message_sink_11.cpp:45-164 | the fields and the message change as one look says, nothing added is lost, and the printer stays faithful |
| Http11Sink.MessageSink11.Write | message_sink_11.cpp:34-43 | looks, hands a prefix of what is printed to the socket within the limit, drops exactly that prefix and stays faithful |
| Http11Source.NeedStops | message_source_11.cpp:130-228 | the bytes consumed of a chunk are those up to the first end of a message, or all |
| Http11Source.SessionReadsMessage | message_source_11.cpp:121-245 | any sequence of reads that reaches the end of a message, cut anywhere, leaves the reader with what the one-byte parser makes of it and takes its bytes and no other |
| Http11Source.SessionsRecoverAll | message_source_11.cpp:235-236 | successive fresh readers recover the messages of a stream in order, with nothing lost or read twice |
| Http11Source.MessageSource11.ParseHeader | message_source_11.cpp:71-103 | a header line changes the framing and the message as the one-byte parser says; lines without a colon and hop-by-hop headers add nothing |
| Http11Source.MessageSource11.Accept | message_source_11.cpp:131-227 | the body of the loop does to the fields what one byte does to the parser; the last byte is CR only inside a line, so no line length is negative |
| Http11Source.MessageSource11.Read | message_source_11.cpp:121-245 | one call with any chunk follows the one-byte parser exactly and consumes exactly the bytes of the message |
| Transcoding.GnyEndToEnd | message_sink_gny.cpp:18-105 | a message printed in GNY under any schedule is read back under any clean cutting, and the reader leaves what is behind it |
| Transcoding.Http11EndToEnd | message_sink_11.cpp:24-164 | a message printed in HTTP/1.1 under any schedule is read back under any cutting, and the reader leaves what is behind it |
| Transcoding.ParsedIsShaped | message_source_11.cpp:45-114 | whatever the bytes, the fields of a parsed message fit on a line again, none of its headers is hop-by-hop, and a verb that was found prints and parses back |
| Transcoding.LengthAgrees | message_source_11.cpp:86-93 | a message without a header that asks for chunks has as many entity bytes as its content length says, and none if it has no content length (section 3.3.3 of RFC 7230) |
| Transcoding.CanonSame | message_sink_gny.cpp:97-105 | a header compressed to a code still fits on a line, is still passed on or not, and frames the entity as before |
| Transcoding.TranscodedIff | http_proxy.cpp:43-79 | a parsed message carried by GNY and then HTTP/1.1 is the same up to the case of names exactly when it has no footers or is chunked again |
| Transcoding.CopiedWhole | http_proxy.cpp:43-79 | a copy that has caught up with a message holds the very same message |
| Transcoding.SafeAfterHop | message_sink_11.cpp:45-164 | a text that both formats can express, without NUL and with a right content length or none, is fit for the HTTP/1.1 printer once GNY has carried it |
| Transcoding.WrongLengthIsChunked | message_source_11.cpp:80-93 | a parsed message has a wrong content length only if it asked for chunks as well or the length is below zero |
| Transcoding.WrongLengthExample | message_source_11.cpp:80-93 | a response in one chunk of two bytes that also announces five is such a message |
| Transcoding.ThroughTwoProxies | http_proxy.cpp:25-83 | of a text that both formats can express, through reader, copy and printer of two proxies under any schedules, one whole message comes out exactly when its content length, if any, is right, and then it is the one that went in, up to the case of names, exactly when its footers have chunks to follow |
| MuxFormat.RunHeader | multiconn.cpp:113-133 | a reader that has taken in any part of a frame header goes on correctly with the rest of it |
| MuxFormat.FrameMeans | multiconn.cpp:78-111 | a frame is an id, two size bytes, high first, and as many bytes of data as they say or 65536, all for that id and none for another |
| MuxFormat.HeaderBytes | multiconn.cpp:119-133 | the id goes out first, then the size, high byte first, 65536 as zero |
| MuxFormat.DataPrefix | multiconn.cpp:78-111 | what a prefix of the stream carries for an id is a prefix of what the stream carries for it |
| MuxRuns.StreamsArrive | multiconn.cpp:63-149 | over any runs of a sender and a receiver without slips, each connection has received a prefix of what its counterpart has produced, and all it has written once the wire is drained |
| MuxRuns.QueueInEveryRun | multiconn.cpp:63-194 | in every reachable state a connection is marked exactly when it is in the queue or being written, none is queued twice, and after an update every connection with something to write is marked |
| MuxRuns.MarkStays | multiconn.cpp:134-148 | no call clears the mark of a connection that has something left to write, so at the end of a frame it is queued again |
| MuxRuns.NewWorkMarked | multiconn.cpp:103-106 | a connection that is made, or gets data, is marked if it has something to write then |
| MuxRuns.MarkedWithWork | multiconn.cpp:63-194 | only an update, making a connection or reading data for it marks one, and only if it has something to write |
| MuxRuns.MarkedUntilOut | multiconn.cpp:63-149 | a connection that is marked at one time and not at a later one has had, at some time between, all that it had produced out on the wire |
| MuxRuns.NothingLeftBehind | multiconn.cpp:63-149 | when there is nothing more to send, every connection that was ever marked has had all that it had produced by then out on the wire |
| MuxRuns.UpdateInOrder | multiconn.cpp:187-194 | an update puts just the connections that wait behind those in the queue, lowest id first |
| MuxRuns.PollExactIff | multiconn.cpp:63-76 | starting the next frame keeps the marks exact if and only if the connection at the head of the queue has something to write |
| MuxRuns.WaitsInOrder | multiconn.cpp:63-147 | an id behind k others starts its frame after exactly k further frames, whatever is read, updated or queued meanwhile |
| MuxRuns.TurnComes | multiconn.cpp:63-147 | an id in the queue gets its turn, with all it has to write up to 65536 bytes, before more than 256 frames' worth of other bytes has gone out |
| MuxRuns.SizeRoundTrip | multiconn.cpp:93-128 | every size from 1 to 65536 comes back from the two bytes it is sent as, 65536 as zero |
| MuxRuns.SizeHolds | multiconn.cpp:63-149 | whatever happens, the size of the current frame stays what it was until its header has gone out, unless the header is slipped over |
| MuxRuns.SlipWriteIff | multiconn.cpp:127-134 | going on with the data before the second size byte keeps the stream whole exactly when no data goes out |
| MuxRuns.SlipDataIff | multiconn.cpp:89-99 | going on with the data before the second size byte keeps the stream whole exactly when no data is read |
| MuxRuns.SlipWriteMeans | multiconn.cpp:127-147 | after a slip the frame is over if it had no more data, and otherwise the size byte sent next is that of what is left of it |
| MuxRuns.SlipDataMeans | multiconn.cpp:89-109 | after a slip the reader stands where it would stand if the first size byte had been smaller by what it has read, or at the end of the frame if nothing is left |
| MuxRuns.SlipExample | multiconn.cpp:127-134 | two bytes sent with a slip arrive as one |
| MuxRuns.SlipReadExample | multiconn.cpp:89-99 | the second size byte of a frame read with a slip reaches the connection as data |
| MuxRuns.LostIff | multiconn.cpp:63-76 | a poll leaves a connection marked but unqueued exactly when it finds it at the head of the queue with nothing to write |
| MuxRuns.StepMarksIff | multiconn.cpp:63-194 | any other call, and anything a connection does to itself, keeps the marks exact |
| MuxRuns.MarksExactIff | multiconn.cpp:63-194 | over any run, connections that take bytes back included, the marks are exact exactly when no poll has found an empty head |
| MuxRuns.LostForever | multiconn.cpp:69-72 | such a connection is in no later state queued or written |
| MuxRuns.LossExample | multiconn.cpp:69-72 | a connection that takes its one byte back before its turn is lost |
| Multiconn.Multiconn.GetWriteSize | multiconn.cpp:63-76 | starts the next frame if none is under way, as the poll event says, and returns how many bytes are left of it |
| Multiconn.Multiconn.Write | multiconn.cpp:113-149 | sends the next bytes of the current frame in order, wherever the last call stopped; if it slips, data follows one size byte |
| Multiconn.Multiconn.WriteData | multiconn.cpp:134-148 | data of one connection goes out, and at the end of the frame it is queued again exactly when it has more |
| Multiconn.Multiconn.Read | multiconn.cpp:78-111 | takes in the next bytes of the stream, wherever the last call stopped, hands data to the connection of the frame and queues it if it has something to write |
| Multiconn.Multiconn.GetVirtualConnection | multiconn.cpp:151-156 | returns the connection of an id, made if there was none; no other slot changes |
| Multiconn.Multiconn.AddVirtualConnection | multiconn.cpp:158-171 | takes the first free slot and queues the connection if it has something to write, or refuses exactly when no slot is free |
| Multiconn.Multiconn.CreateVirtualConnection | multiconn.cpp:173-185 | the same for a connection that it makes itself |
| Multiconn.Multiconn.Update | multiconn.cpp:187-194 | the loop queues every connection that has something to write and is not marked |
| Codecs.AtWorkFaithful | message_sink_11.cpp:45-164 | in either format, wherever an interleaving of filling, looking and sending has brought a printer, what it has emitted, once read, is what has been drained of its message |
| Codecs.LookSends | message_sink_11.cpp:45-164 | in either format, when a look leaves nothing to send and the mailbox sent, the bytes sent are exactly one message that means what was put in, or nothing if it never was ready |
| Codecs.ReadFollows | message_source_11.cpp:121-245 | in either format, wherever it is cut, a read goes as far as the one-byte parser and takes in exactly the bytes up to the end of the message, unless it gets lost |
| Codecs.ReadExactIff | message_source_gny.cpp:44-155 | in either format a read in step with the one-byte parser stays in step with it exactly when it does not cut a value that it began |
| Codecs.ReadyPieces | message_sink_gny.cpp:38-55 | what went out for a row of messages is one whole message for each that was ready and nothing for the others |
| Codecs.InOrderIff | message_sink_gny.cpp:38-55 | it can be taken apart into one message for each of them exactly when all were ready |
| Codecs.OneDivision | message_source_11.cpp:235-236 | a stream divides into complete messages of a format in one way only |
| Codecs.SessionsRecoverAll | message_source_11.cpp:235-236 | successive fresh readers of either format, wherever the stream is cut, divide it into its messages, which are as they were sent if no value is cut |
| Pipeline.PeerReadsInOrder | http_proxy.cpp:153-196 | in either format a peer with a fresh reader for each response that was ready recovers these in order from what has been written, however it cuts it; values in GNY only if it cuts none |
| Pipeline.AnswersInOrderIff | http_proxy.cpp:170-178 | the peer's k-th message is the k-th response, for every response that is over, exactly when all of them were ready |
| Pipeline.LookedForSound | http_proxy.cpp:162-173 | looking for more of the current response keeps the account of what has been written, leaves all requests alone, and finds the response over only when its encoding has gone out whole |
| Pipeline.WrittenSound | http_proxy.cpp:184-196 | writing part of the current response keeps the account: the finished responses in order, then the start of the current one |
| ProxyLinker.PolledOk | http_proxy.cpp:153-182 | looking for something to write pops only pairs whose response has gone out whole and whose request has been taken, writes nothing, and stops only at a pair that is not over |
| ProxyLinker.ReadMoreOk | http_proxy.cpp:198-301 | reading leaves exactly one pair behind for each request that completes and only adds pairs at the end |
| ProxyLinker.HostFound | http_proxy.cpp:222-229 | the host is the value of the first header of that name, wherever it stands, up to its last colon if it has one |
| ProxyLinker.AnswerMeans | http_proxy.cpp:212-289 | a read queues one answer to a request: upstream's or a 504 as soon as verb, URL and host are known, a 400 when the request completes without, and nothing more after that |
| ProxyLinker.HostedIsPassedOn | http_proxy.cpp:212-245 | a request with a verb that is found, a URL and a host in any of its headers, or a forward host, gets its answer from upstream or the 504, and never the 400 |
| ProxyLinker.HostlessOrUnfoundRefused | http_proxy.cpp:212-289 | a request that completes without a host, and without a forward host, or whose verb is not found, as that of POST, is answered with 400 |
| ProxyLinker.ResponsesInOrder | http_proxy.cpp:153-305 | with a printer of either format, in every reachable state each completed request has exactly one pair, in the order of arrival, and what has been written is the encodings of the responses that are over followed by the start of the next (section 6.3.2 of RFC 7230) |
| ProxyLinker.ClientReadsInOrder | http_proxy.cpp:153-305 | a client that reads what has been written, in either format and however it is cut, gets the responses that were ready, each with the request it belongs to; its k-th message is that of the k-th request, for every response that is over, exactly when all of them were ready |
| ProxyLinker.PolledUnready | http_proxy.cpp:168-178 | a response that is complete and empty but not ready is over at the next call, and nothing is written for it |
| ProxyLinker.OutOfPlace | http_proxy.cpp:168-178 | from there no later state has the client's messages in the place of their requests |
| ProxyLinker.UnreadyExample | http_proxy.cpp:168-178 | a run from the beginning: a GET whose answer has no status |
| ProxyLinker.RefusedBlocks | http_proxy.cpp:170-173 | in any run the response to a request that upstream has not accepted, and that holds something, is never over, nor is any behind it |
| ProxyLinker.RefusedSticks | http_proxy.cpp:237-289 | a request that completes with something in it without having been accepted blocks the line at its place in every run from there |
| ProxyLinker.CanFinishIff | http_proxy.cpp:170-181 | once the first request and its response are complete, some run gets the response over if and only if upstream has accepted the request or the request holds nothing |
| ProxyLinker.GeneratedFits | http_proxy.cpp:15-23 | the proxy's own responses are complete and can be printed in either format |
| ProxyLinker.GeneratedReads | http_proxy.cpp:15-23 | a client reads of them, in either format, the status, the reason as the entity, and one header that says who answers |
| ProxyLinker.RefusedExample | http_proxy.cpp:285-289 | a GET with one header and no host is answered with 400 and that response is never over; without any header it can be |
| ProxyLinker.ALinker.constructor | http_proxy.cpp:140-145 | begins with an empty queue and a request to read |
| ProxyLinker.ALinker.GetWriteSize | http_proxy.cpp:153-182 | the recursion ends and leaves the state that polling specifies, and returns what its printer has |
| ProxyLinker.ALinker.Write | http_proxy.cpp:184-196 | hands a prefix of what the current printer has to the socket and keeps everything in order |
| ProxyLinker.ALinker.Read | http_proxy.cpp:198-301 | passes a request on as soon as it is known where to, refuses it otherwise, and goes on to the next when it is complete |
| HttpServer.PopsIff | http_server.cpp:42-57 | one call pops at most one pair, exactly when the first is over, which means its response has gone out whole, and never the pair of the current request |
| HttpServer.LastPair | http_server.cpp:65-78 | the last pair is that of the current request and all before it have complete requests |
| HttpServer.ReadServesCurrent | http_server.cpp:65-78 | a read lets the processor of the current request work on that request and its response, and touches no other message |
| HttpServer.PollServesFirst | http_server.cpp:42-57 | a poll lets the processor of the first pair that is not over work, before the printer looks |
| HttpServer.WriteServesFirst | http_server.cpp:59-63 | a write sends first and lets the processor of the first pair work then |
| HttpServer.ServesInOrder | http_server.cpp:15-78 | with a printer of either format, in every reachable state the queue is not empty, its last pair is that of the current, incomplete request, all requests before it are complete, and responses leave in the order of the requests |
| HttpServer.ClientReadsInOrder | http_server.cpp:42-63 | a client that reads what has been written, in either format and however it is cut, gets the responses that were ready, each with the request it belongs to; its k-th message is that of the k-th request, for every response that is over, exactly when all of them were ready |
| HttpServer.TurnedUnready | http_server.cpp:42-49 | a response that is complete and empty but not ready is over at the next call, and nothing is written for it |
| HttpServer.UnreadyExample | http_server.cpp:42-57 | a run from the beginning: a GET that its processor answers without a status |
| HttpServer.EntityLinker.constructor | http_server.cpp:15-29 | begins with one pair, that of the current request, and its printer |
| HttpServer.EntityLinker.GetWriteSize | http_server.cpp:42-57 | pops, turns to the next pair, lets its processor work and looks again, and returns what its printer has; there is always a printer |
| HttpServer.EntityLinker.Write | http_server.cpp:59-63 | hands a prefix of what the current printer has to the socket and lets the processor work |
| HttpServer.EntityLinker.Read | http_server.cpp:65-78 | lets the current processor work and, when the request is complete, begins the next with a pair of its own |
| ReqLinkers.CheckedOk | requester.cpp:84-95 | a request ends exactly when it has gone out whole and its response has come in whole and been taken, and only then is the linker free again |
| ReqLinkers.FreedIff | requester.cpp:84-95 | a linker is free again if and only if its request is complete and all out and of a complete response the generator has taken every part |
| ReqLinkers.NeverLeftDone | requester.cpp:55-82 | no poll, write or read leaves a linker with a request that is over |
| ReqLinkers.KthResponse | requester.cpp:43-95 | whatever the reads, as long as none gets lost, and the generators do, in either format, what the k-th generator of a linker got is the k-th complete response of the stream, byte for byte, and just that message if no value was cut |
| ReqLinkers.KthRequestOfServer | requester.cpp:43-95 | when the server of this program has read what a linker has written, its k-th request is the k-th that a generator had ready |
| ReqLinkers.KthResponseOfServer | requester.cpp:43-95 | when the linker has read what that server has written, the response that the k-th generator got is the k-th that the server had ready, the answer to the request it was queued with |
| ReqLinkers.PeerReadsRequests | requester.cpp:55-72 | the peer, however it cuts, reads those requests of a linker's generators that were ready in the order in which they were accepted, with the start of the one under way behind them |
| Requester.AddOk | requester.cpp:211-251 | a request is refused exactly when no linker is idle, no connection has room and no new one can be made; an accepted one gets a linker to its endpoint; either way the pool stays exact |
| Requester.IdleFirst | requester.cpp:224-230 | an idle linker to the endpoint is taken before anything else, and no connection is touched |
| Requester.RoomNext | requester.cpp:232-238 | without one, a connection that has room is used, and none is made |
| Requester.MadeIff | requester.cpp:240-249 | a connection is made if and only if no linker is idle, none has room, the cap is not reached and the endpoint can be reached; it is one, with the new linker on it |
| Requester.RefusedIsFull | requester.cpp:224-250 | a reachable endpoint refuses a request only at the cap with every connection full and every linker on them busy |
| Requester.ClosedOk | requester.cpp:31-41 | when a connection goes, its linkers go with it, idle ones leave their pool, and the pool stays exact |
| Requester.ClosedTakesItsOwn | requester.cpp:31-41 | nothing but the connection and what is on it goes: all other linkers stay as they are |
| Requester.PoolInEveryRun | requester.cpp:31-251 | in every state that is reachable without a reader getting lost a live linker is in the pool of its endpoint exactly when it has no generator, no endpoint exceeds the cap, a generator is served by at most one linker, and responses match requests on each |
| Requester.Requester.AddRequest | requester.cpp:211-251 | reuses an idle linker, else a connection with room, else makes a connection below the cap, else refuses and changes nothing |
| Requester.Requester.Destroy | requester.cpp:113-116 | removes the connection from the map of its endpoint and everything on it |
| Requester.Requester.CheckDone | requester.cpp:84-95 | puts a linker into the pool of its endpoint when its request is over |
| Requester.Requester.GetWriteSize | requester.cpp:55-63 | lets the generator add to its request and returns what there is to write; an idle linker has nothing |
| Requester.Requester.Write | requester.cpp:65-72 | hands a prefix of what the printer has to the socket and checks whether the request is over |
| Requester.Requester.Read | requester.cpp:74-82 | consumes what belongs to the current response, lets the generator take it and checks whether the request is over |
| Relay.OutwardCopied | requester.cpp:55-63 | the copier brings a linker's request up to date: a legal filling, and nothing of the client's request is lost or doubled |
| Relay.HomewardRead | requester.cpp:74-82 | when upstream's response goes on, the copy that follows leaves the client's response with all of it |
| Relay.CheckedServes | requester.cpp:84-95 | however a call ends, the request that is over has gone upstream whole and its answer is what was read for it |
| Relay.OverHearsNothing | http_proxy.cpp:172-178 | to a response that is over upstream has nothing to add |
| Relay.StepOk | http_proxy.cpp:25-321 | every call on the client's connection or on a linker upstream, and the end of a connection upstream, keeps the proxy in order |
| Relay.ClientRuns | http_proxy.cpp:138-321 | every run of the whole proxy is a run of the client's connection, so all that is said of those holds |
| Relay.AnswersFromUpstream | http_proxy.cpp:25-321 | in every reachable state the k-th response that is over, if upstream has accepted the k-th request, is the message that upstream has sent in answer to that request: what the bytes taken off that stream for it mean, which are one whole message |
| Relay.RequestsToUpstream | http_proxy.cpp:34-83 | each request that a linker upstream has behind it is a request of the client, sent upstream just as it came, and what was read for it is what the client is told |
| Relay.KthAnswer | http_proxy.cpp:34-83 | if the peer of a linker sends complete responses one after the other, the client's response to the j-th request of that linker is the j-th of them |
| Relay.ClientGetsAnswers | http_proxy.cpp:25-321 | the client, reading with a fresh reader for each message, gets for each of its requests that upstream has accepted what upstream has answered to it |

## Left out

- Sockets, `select`, name resolution and the poll loops of `client.cpp` and `server.cpp`: a socket is two
  byte streams of which a call moves an arbitrary prefix; a call that fails or finds the peer gone moves nothing.
- The programs around the library (`request_gen.cpp`, `test_proxy.cpp`, `test_http_server.cpp`) and `mime_type`:
  input, output and foreign processes.
- `Tunnel`, CONNECT, `Requester::add_connection` and `Connector`: forwarding of bytes after a link is up;
  requests with the verb CONNECT are outside the runs of `ProxyLinker`.
- Object lifetime: messages of the linkers live in an indexed store and are never freed; `delete` and
  destructors appear only where they change the shared maps. In particular the program deletes a pair whose response is
  over (`http_proxy.cpp:173-175`) even if its copier is still called because the linker upstream is not yet done with
  the request (`requester.cpp:59`, `requester.cpp:79`); in `Relay` such a call finds the messages as they were.
- A connection whose requests go out in one format and whose responses come in in the other: `ReqLinkers` and
  `Requester` use one format for both, as the programs do.
- A message being read by `ProxyLinker` or `HttpServer` grows by any legal additions instead of by the bytes
  of a particular reader; `RunFills` and `ScanFills` say that what a reader adds is legal.
- Request generators other than the copier, and the server's processor, are code outside these files: what they take and
  add is arbitrary as long as it respects the stages. In `Relay` every generator is a copier.
- Several clients that share the pool of one proxy: `Relay` has one.
- A write of the virtual connections inside `Multiconn` is modelled as an output buffer and an input log; that
  a connection's write size shrinks only through `write` is the contract of `connection.h:8-22`, and the
  event `Retract` shows what happens otherwise.
- Wrappers of the identity kind: they only say that a connection carries one linker.
- The default port and the port part of `parse_host`: an endpoint has a host and a service, and only the host decides
  whether there is one.
- Malformed input: GNY codes above the end mark and verbs beyond the table lead to a state of which nothing is said.
- The messages on the error stream and standard output (`FAIL_MESSAGE`, warnings).
- Chunk sizes of 2^63 and more: the accumulator is unbounded.
- `isspace` is fixed to the six ASCII white-space bytes.
- The 1-or-2-byte id and the reuse of free ids of `specs.txt:1-17`: the code uses one byte and never frees an id.
- Transcoding.ThroughTwoProxies: does not cut the streams between the proxies into reads, because `GnyEndToEnd` and
  `Http11EndToEnd` say that clean cuts make no difference; and it leaves out texts whose content length is out of
  the range of a long, on which `FramingAgreesIff` says when the two sides agree.
- MuxRuns.StreamsArrive: is about runs without slips, because a slip that moves data destroys the stream.
- Requester.PoolInEveryRun: takes the cap for a number that is not negative, as the program sets it.
