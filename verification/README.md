# quicsy: models and proofs

This project models the parts of the repository whose behaviour is hardest to
see from the code, and proves what they are for. All of it is Dafny; the names
of the modules follow the components.

* **The HTTP/1 parser** (`Http*`). `HttpParser.HttpParser` is the parser object:
  its record, `nread`, its error, and a ghost log of callbacks. `Execute` keeps
  the structure of `http_parser_execute`: the marks into the caller's buffer, the
  inner loops over header names and values, the `memchr` skip, the bulk body
  skips and the re-execution of a byte. It is proved to refine `HttpFeed.Feed`,
  which puts one byte at a time through the switch (`HttpStep.Step`), without
  marks or fast paths. Everything else is proved of `Feed`: split invariance,
  pausing, the assertions, and the grammar of the callbacks; which request lines,
  targets, status lines, header lines and chunk lines are accepted, exactly, in
  terms of their characters; the framing fields and the Connection options; chunked
  decoding; and whole requests and responses, with what their text says about what
  follows them on the connection. Strict mode, as the header file has it by default.
* **The URL parser** (`Url*`). `UrlParse.ParsedUrl` holds the fields and the port.
  Its loops are proved to compute a classification of every byte by the two
  automata (`UrlSpec`); from that follow the partition of every accepted URL, the
  round trip with a URL printed from its components, and that nothing else but
  such URLs is accepted; for CONNECT targets likewise. `UrlText` says the same in
  terms of characters written out.
* **The QUIC server's own state**: `PacketBatch` (sending with and without UDP
  generic segmentation offload), `CidRouting` and `CidServer` (the two
  connection-ID maps), `DynWindow` (generated responses and their flow-control
  window), `CryptoQueue` (unacknowledged handshake data; the client has the same
  code) and `RetryToken`.
* **The client's send buffer**: `ClientSend`.
* **Small algorithms**: `Hexdump`, `Numbers` and `StrReplace`.

ngtcp2, nghttp3, the kernel and the application are an environment: a method
takes what they answer as a parameter, and its `requires` says what is assumed of
them. A callback of the HTTP/1 parser may return anything and may pause the
parser; `on_headers_complete` is a function of the record.

Where the code does something one would not expect, the model follows the code:

* A callback that pauses the parser is not seen in the result, with one
  exception: where `on_url` pauses at the line end of a request of version 0.9,
  the byte is taken, but the state is not stored. The result is then the unpaused
  one if and only if another line end follows (`HttpPause.PausesUnseen`,
  `HttpPause.ShortRequestPaused`).
* `unhex` has 128 initialisers for 256 entries, so that bytes above 127 are read
  as the hexadecimal digit 0 (`HttpTypes.Unhex`, `HttpFraming.HighByteIsZero`).
* In a Connection field a segment that stops inside `keep-alive`, `close` or
  `upgrade` takes the comma and the next segment in, and an empty segment or one
  that begins with a tab or an underscore hides all that follow: `c,close` does
  not close the connection (`HttpOptions.HiddenOptions`).
* `nread` counts a byte twice when a buffer ends in a header name or value; hence
  split invariance is stated for all of the record but `nread`.
* The `memchr` skip does not check header characters: a strict parser looks at the
  first byte of a stretch, and at those behind a byte that was not read in the
  general state (`HttpExecute.Checked`, `HttpExecute.ControlByteSkipped`).
  `Execute` is therefore compared with the lenient byte-wise run, and with the
  strict one where it reports a parse error.
* The URL parser accepts the empty string, and skips further number signs before
  a fragment (`UrlPieces.Url`). A CONNECT target may end in a question mark and
  number signs (`UrlConnect.MarkedTargetAccepted`).
* With segmentation offload a batch leaves through the endpoint of its first
  packet. The two ways to send agree exactly when the packets of a batch have one
  local endpoint (`PacketBatch.SameWire`, `PacketBatch.SecondEndpointLost`).
* A handler that is dropped before it is committed leaves the connection IDs that
  it issued behind in `ctos_`. The lookup assertion stays safe exactly when it
  has retired all of them (`CidRouting.DroppedKeeps`).
* `remove` erases the destination ID with which a client first addressed a
  connection. If the library gave the same ID to another connection as its preferred
  address and retired it since, removing either connection takes the entry of the
  other with it; and the empty ID, which every connection without a preferred
  address has as its `pscid`, is erased with each of them
  (`CidRouting.ReachableOrigins`, `CidRouting.ErasedOrigin`).
* The first byte of a header value is not checked, and a transfer coding whose line
  is continued in the next one is not acted upon (`HttpFieldLine.FieldLineExact`,
  `HttpFieldLine.FoldedCodingLost`).
* A request line without a version, or of a version below 1.0 that a CR follows, ends
  the headers; a line of such a version that a LF alone ends does not
  (`HttpRequestLine.NoHeaders`).
* Each line end before a response begins a message of its own
  (`HttpStatusLine.LeadingResponseEnds`).
* `parse_uint_iec` and `parse_duration` accept a unit without digits as zero
  (`Numbers.UnitAlone`).

## Model

| member | source | states |
|---|---|---|
| HttpParser.HttpParser.constructor | third-party/http-parser/http_parser.c:2093-2102 | a new parser satisfies the invariants and has made no callback |
| HttpParser.HttpParser.Execute | third-party/http-parser/http_parser.c:634-2040 | for every buffer, record and behaviour of the callbacks: the call reads, counts and reports what the byte-wise run does (`CallSpec`); a call that a callback fails or pauses leaves the record of the byte-wise run up to that callback, has taken its bytes and made its callbacks (`Halted`); `nread` stays within the header limit and at least the number of header bytes read since its last reset, and a call that succeeds has at no point read more than the limit; after an error nothing changes; the empty buffer is treated as the end of input |
| HttpParser.HttpParser.Pause | third-party/http-parser/http_parser.c:2395-2407 | pausing and unpausing touch only the error code |
| HttpParser.Flush | third-party/http-parser/http_parser.c:2010-2030 | the callbacks at the end of a buffer report exactly what the marks hold, in the order of the source, also when one of them fails or pauses |
| HttpParser.OneMark | third-party/http-parser/http_parser.c:2020-2024 | at the end of a buffer at most one mark is set, and it lies in the buffer |
| HttpExecute.Pass | third-party/http-parser/http_parser.c:702-1238 | one pass of the switch with its callbacks, marks and pauses is one step of the byte-wise machine |
| HttpExecute.FieldLoop | third-party/http-parser/http_parser.c:1239-1366 | the inner loop over a header name reads what the byte-wise run reads, and stops at the first byte that is no token |
| HttpExecute.MemChr | third-party/http-parser/http_parser.c:1484-1485 | the first occurrence among the bytes searched, or none |
| HttpExecute.NextLineEnd | third-party/http-parser/http_parser.c:1476-1499 | the `memchr` skip stops at the first CR or LF, but no later than the header limit allows |
| HttpExecute.ValueLoop | third-party/http-parser/http_parser.c:1447-1636 | the inner loop over a header value, with its skip, ends where the lenient byte-wise run does, or at a byte that run refuses; which bytes a strict parser checks |
| HttpExecute.ControlByteSkipped | third-party/http-parser/http_parser.c:1468-1499 | a control byte that the byte-wise strict run refuses and the loop does not look at |
| HttpCall.OnHeaderField | third-party/http-parser/http_parser.c:1239-1366 | a stretch of header name in one buffer matches the byte-wise run, including the second count of `nread` at the buffer's end |
| HttpCall.OnHeaderValue | third-party/http-parser/http_parser.c:1447-1636 | the same for header values, with the values the strict run would refuse |
| HttpCall.OnBodyIdentity | third-party/http-parser/http_parser.c:1831-1866 | the bulk skip over an identity body equals reading it byte by byte |
| HttpCall.OnChunkData | third-party/http-parser/http_parser.c:1964-1985 | the bulk skip over chunk data equals reading it byte by byte |
| HttpInvariant.AssertionsHold | third-party/http-parser/http_parser.c:1346-1529 | the invariant implies the parser's own assertions on states, header states, flags and lengths |
| HttpInvariant.StepInv | third-party/http-parser/http_parser.c:702-2001 | every step that does not fail keeps the invariant; the 64-bit lengths neither wrap nor reach 2^64-1 |
| HttpErrors.ErrorTellsPlace | third-party/http-parser/http_parser.c:702-2001 | the error code of a call that fails tells in which part of the message the byte stands that is not taken |
| HttpInvariant.StepRank | third-party/http-parser/http_parser.c:66-77 | a byte is executed again only finitely often |
| HttpFeed.FeedInv | third-party/http-parser/http_parser.c:634-2040 | every run keeps the invariant |
| HttpSplit.SplitInvariance | third-party/http-parser/http_parser.c:634-2040 | an input that one call reads in full gives the same joined callback trace and the same record however it is cut into non-empty calls, and each of these calls succeeds |
| HttpResume.CallResumes | third-party/http-parser/http_parser.c:80-133 | after a call that succeeds or is paused, other than by `on_url` at a line end, the byte-wise run over the bytes not taken ends as that over the whole input, and tells what is left to tell |
| HttpPause.PausesUnseen | third-party/http-parser/http_parser.c:634-2040 | an input that one call reads in full gives the same joined callback trace and the same record in any run in which callbacks pause anywhere and the rest is given again, in pieces or not, if and only if `on_url` was not paused at a line end, or another line end followed the last time it was |
| HttpPause.CutExact | third-party/http-parser/http_parser.c:1069-1080 | from a URL paused at its line end, the unpaused result is met if and only if the rest of the input begins with a line end |
| HttpPause.ShortRequestPaused | third-party/http-parser/http_parser.c:1069-1080 | `GET /` and a line feed: complete when nothing pauses, not complete when `on_url` does |
| HttpGrammar.RequestGrammar | third-party/http-parser/http_parser.c:920-2001 | in every run of a request parser, with any pauses, the callbacks are a prefix of repeated messages: begin, URL, fields each with a value, headers complete, then no body, an identity body or chunks, then complete |
| HttpGrammar.StepGrammar | third-party/http-parser/http_parser.c:1831-2001 | each state corresponds to a phase of the grammar; within a chunk, the bytes delivered and `content_length` add up to the declared size |
| HttpNames.NamesExact | third-party/http-parser/http_parser.c:1189-1356 | the header-name matcher recognises exactly the names Connection, Proxy-Connection, Content-Length, Transfer-Encoding and Upgrade, in any mixture of cases |
| HttpFraming.LengthExact | third-party/http-parser/http_parser.c:1407-1531 | a Content-Length value is accepted if and only if it is digits, then digits or spaces, of a value up to 2^64-7; and then that value is stored |
| HttpFraming.ChunkedExact | third-party/http-parser/http_parser.c:1398-1542 | a Transfer-Encoding value selects chunked if and only if it is `chunked` in any mixture of cases, followed by spaces |
| HttpFraming.SizeExact | third-party/http-parser/http_parser.c:1883-1934 | a chunk size is accepted if and only if it is made of hexadecimal digits and of bytes from 128 on, which count as zero, and its value is below the overflow bound; and then that value is stored |
| HttpChunked.SizeLineExact | third-party/http-parser/http_parser.c:1883-1962 | the line of a chunk is accepted if and only if it is a size, nothing or an extension behind a semicolon or a space, and a CR and a LF |
| HttpChunked.DataEndExact | third-party/http-parser/http_parser.c:1987-2001 | behind the data of a chunk exactly a CR and a LF are accepted |
| HttpFraming.HighByteIsZero | third-party/http-parser/http_parser.c:224-241 | the byte 128 alone is read as the chunk size zero |
| HttpOptions.ConnectionExact | third-party/http-parser/http_parser.c:1423-1616 | a Connection value, whatever it holds, sets the flags of exactly the options that are looked at in it, and changes nothing else |
| HttpOptions.FlagsNamed | third-party/http-parser/http_parser.c:1602-1614 | each of the three flags is set if and only if a segment that is looked at is its word, in any mixture of cases, with spaces around it |
| HttpOptions.AllLookedAt | third-party/http-parser/http_parser.c:1545-1599 | every segment is looked at if and only if none but the last is empty, begins with a character the matcher gives up on, or stops inside one of the words |
| HttpOptions.HiddenOptions | third-party/http-parser/http_parser.c:1545-1599 | lists in which an option is not seen |
| HttpFields.FreeLine | third-party/http-parser/http_parser.c:1189-1714 | a header line of any name but Content-Length is reported as one name and one value, and changes only the flags |
| HttpChunked.ChunkedRoundTrip | third-party/http-parser/http_parser.c:1883-2001 | decoding undoes chunked encoding: any hexadecimal spelling of the sizes, any extensions, any trailer fields but Content-Length; one header, the data and one completion per chunk, then those of the last chunk and the message |
| HttpChunked.ChunksPayload | third-party/http-parser/http_parser.c:1964-1985 | the bytes given to `on_body` are the concatenated payload |
| HttpMethods.MethodReads | third-party/http-parser/http_parser.c:920-1011 | each of the 33 methods is recognised, through the guesses the parser corrects on the way |
| HttpRequestLine.RequestLineExact | third-party/http-parser/http_parser.c:920-1187 | a request line is accepted if and only if it is the name of one of the 33 methods, spaces, a target, and, if there is a version, spaces and `HTTP/` with two digits; a CR may precede the LF |
| HttpRequestLine.LineReads | third-party/http-parser/http_parser.c:920-1187 | such a line, if headers follow it, reports the target and stores the method and the digits of the version |
| HttpRequestLine.ShortLineEnds | third-party/http-parser/http_parser.c:1069-1187 | a line without a version, or of version 0 with a CR, is a whole request, after which the connection is closed |
| HttpRequestLine.LeadingLineEnds | third-party/http-parser/http_parser.c:920-926 | line ends before a request are passed over |
| HttpTarget.TargetExact | third-party/http-parser/http_parser.c:486-632 | the targets a request line may have, by their characters: a slash or an asterisk and any visible characters; or a scheme of letters, unless the method is CONNECT, a server name without two adjacent at signs, and nothing or a slash or question mark with any visible characters |
| HttpTarget.AcceptedIsTarget | third-party/http-parser/http_parser.c:2291-2393 | whatever `http_parser_parse_url` accepts may stand in a request line |
| HttpStatusLine.StatusLineExact | third-party/http-parser/http_parser.c:758-918 | a status line is accepted if and only if it is `HTTP/` with two digits, spaces, a code of digits up to 999, and nothing or a space and a reason |
| HttpStatusLine.StatusLineReads | third-party/http-parser/http_parser.c:758-918 | such a line reports the reason, and stores the digits of the version and the value of the code |
| HttpStatusLine.LeadingResponseEnds | third-party/http-parser/http_parser.c:758-779 | each line end before a response is reported as the beginning of a message |
| HttpEither.EitherKind | third-party/http-parser/http_parser.c:721-756 | a parser for both kinds reads what begins with `HT` as a response parser does and the rest as a request parser does, but refuses other bytes behind an `H` |
| HttpEither.EitherLineEnds | third-party/http-parser/http_parser.c:721-724 | line ends before either are passed over |
| HttpFieldLine.FieldLineExact | third-party/http-parser/http_parser.c:1189-1676 | a header line is accepted if and only if it is a token, a colon, blanks, and a value that is empty or of which all bytes but the first are checked; a length is given once and within bounds |
| HttpFieldLine.FieldReads | third-party/http-parser/http_parser.c:1189-1676 | such a line is reported as its name and its value, without the blanks between them |
| HttpFieldLine.HeaderTables | third-party/http-parser/http_parser.c:189-222 | the tables of token and header bytes, by character (section 3.2.6 of RFC 7230) |
| HttpFieldLine.SecondLength | third-party/http-parser/http_parser.c:1407-1416 | a second Content-Length is refused |
| HttpFieldLine.FoldedReads | third-party/http-parser/http_parser.c:1649-1714 | a value that goes on over any number of lines is reported as one value, with the blanks that begin each line and without the line ends |
| HttpFieldLine.EmptyFold | third-party/http-parser/http_parser.c:1685-1690 | before a value has begun, a line end and blanks count as blanks |
| HttpFieldLine.FoldedLength | third-party/http-parser/http_parser.c:1649-1653 | a length that goes on in the next line is refused |
| HttpFieldLine.FoldedCodingLost | third-party/http-parser/http_parser.c:1383-1445 | a coding `chunked` whose line is continued does not frame the body, while on one line it does |
| HttpFieldLine.EmptyLine | third-party/http-parser/http_parser.c:1189-1206 | the headers end with a CR and a LF, or with a LF alone |
| HttpHeaders.UnframingLine | third-party/http-parser/http_parser.c:1189-1714 | a field other than the framing ones is reported as it stands, and sets exactly the flags of the options that its printed value names |
| HttpHeaders.HeadReads | third-party/http-parser/http_parser.c:1189-1783 | any fields around a framing field, or without one: what they say together is what is known when the headers end |
| HttpMessage.MessageRoundTrip | third-party/http-parser/http_parser.c:634-2085 | parsing undoes printing of a request or response of any version, target, status and fields, with no body, a sized or a chunked one, for every answer of `on_headers_complete`; by the printed version digits, status and options the parser then waits for the next message, or the connection is closed, or the call ends in an upgrade |
| HttpMessage.UnboundedRoundTrip | third-party/http-parser/http_parser.c:1785-1872 | a response that no field and no status bounds is delivered to the end of the connection |
| HttpMessage.NothingFollows | third-party/http-parser/http_parser.c:2045-2085 | after a message that names `close` since version 1.1, or does not name `keep-alive` before, any further byte but a line end is refused as HPE_CLOSED_CONNECTION |
| HttpMessage.NothingFollowsAll | third-party/http-parser/http_parser.c:2045-2085 | the same behind any number of messages that did not close the connection |
| HttpMessage.BothFramings | third-party/http-parser/http_parser.c:1727-1733 | a message with Content-Length and chunked coding is refused |
| HttpMessage.OtherAnswer | third-party/http-parser/http_parser.c:1759-1775 | any other answer of `on_headers_complete` fails the call |
| HttpMessage.PipelineRoundTrip | third-party/http-parser/http_parser.c:634-2040 | any number of requests, or of responses, in a row, each of which lets the next follow |
| HttpConnection.MessagesInAnyCut | third-party/http-parser/http_parser.c:634-2040 | messages printed in a row and cut into calls in any way are told as the messages they are |
| HttpConnection.MessagesInAnyRun | third-party/http-parser/http_parser.c:634-2040 | the same however the callbacks pause and the rest is given again |
| UrlParse.ParseHost | third-party/http-parser/http_parser.c:2204-2284 | the host part is accepted exactly when the second automaton ends well, and its fields cover exactly the bytes that it assigns to them |
| UrlParse.ScanUrl | third-party/http-parser/http_parser.c:2304-2360 | the loop fails exactly when the first automaton dies, and its spans cover exactly the bytes that it assigns to each field |
| UrlParse.StrToUl | third-party/http-parser/http_parser.c:2380-2390 | the decimal value of the longest run of digits |
| UrlParse.ParsedUrl.Split | third-party/http-parser/http_parser.c:2291-2373 | the fields of both automata together |
| UrlParse.ParsedUrl.Parse | third-party/http-parser/http_parser.c:2291-2393 | zero exactly for the accepted URLs; then the fields are the maximal slices of the classification and the port is the value of its digits |
| UrlParse.Merged | third-party/http-parser/http_parser.c:2369-2373 | splitting the host part in place keeps the other fields exact |
| UrlParse.SpansExist | third-party/http-parser/http_parser.c:2304-2360 | the bytes of each field are adjacent, in every URL that the first automaton accepts |
| UrlPartition.AcceptedIsPartitioned | third-party/http-parser/http_parser.c:2291-2393 | fields are non-empty, lie in the buffer, are disjoint and ordered schema, userinfo, host, port, path, query, fragment; a byte in no field is one of `: / ? # @ [ ]`; schema, userinfo and port imply a host |
| UrlCompose.ComposedSplitsBack | third-party/http-parser/http_parser.c:486-632 | a URL printed from legal components is accepted, every byte is assigned to the component it was printed from, the set fields are the non-empty components, and the port is its value |
| UrlDecompose.AcceptedIsComposed | third-party/http-parser/http_parser.c:2291-2393 | a URL is accepted if and only if it is empty or printed from legal components |
| UrlDecompose.AuthorityBack | third-party/http-parser/http_parser.c:2122-2202 | whatever the second automaton accepts is a printed authority: user info, a name or a bracketed address with an optional zone, and a port |
| UrlText.CharTables | third-party/http-parser/http_parser.c:413-440 | the character classes, by character |
| UrlText.TargetAccepted | third-party/http-parser/http_parser.c:2291-2393 | a path of the characters of RFC 3986 written out, with or without a query and a fragment, is accepted and found as what it is |
| UrlText.WebUrlAccepted | third-party/http-parser/http_parser.c:2291-2393 | the same for a URL with a scheme, user info, a host name and a port |
| UrlText.FieldBytes | third-party/http-parser/http_parser.c:2291-2393 | in an accepted URL every byte of a field is one of the characters that may stand there, written out |
| UrlConnect.ConnectSplitsBack | third-party/http-parser/http_parser.c:2375-2378 | a printed authority, with an empty query and fragment behind it or not, is accepted as a CONNECT target if and only if it has a port and no user info |
| UrlConnect.ConnectAccepted | third-party/http-parser/http_parser.c:2375-2378 | a buffer is accepted as a CONNECT target if and only if it is an authority with a port and without user info, with at most a question mark and number signs behind it |
| UrlConnect.MarkedTargetAccepted | third-party/http-parser/http_parser.c:2375-2378 | a target that is accepted and is no authority |
| PacketBatch.Handler.WriteStreams | src/quicsy_server.cc:1661-1800 | for every sequence of library outcomes: without an error the datagrams are exactly the packets written, in order, each to its own address, at most ten; it stops exactly when the library is idle or a batch ends, and then the write watcher is started; also in case of an error the HTTP connection has been told of every byte taken of every stream, and once of every refusal of a stream, in the order of the outcomes |
| PacketBatch.CallsReport | src/quicsy_server.cc:1703-1757 | the calls that the outcomes ask for add up, for every stream and at every point, to the bytes taken and the refusals |
| PacketBatch.PacketsInOrder | src/quicsy_server.cc:1661-1800 | the packets of a run are those of the passes that wrote one, in their order |
| PacketBatch.Handler.Gather | src/quicsy_server.cc:1759-1784 | gathering keeps full packets to one address in the buffer and sends the batch exactly when it has to end |
| PacketBatch.Handler.Fill | src/quicsy_server.cc:1691-1694 | the library is only called with room for one more packet |
| PacketBatch.CutConcat | src/quicsy_server.cc:2755-2765 | cutting a batch of full packets and one shorter last one at the segment size gives back the packets |
| PacketBatch.SameWire | src/quicsy_server.cc:1759-1797 | both ways to send put the same bytes to the same addresses on the wire; without offload every packet leaves through its own endpoint, with it through that of the first; so they agree if and only if the batch has one endpoint |
| PacketBatch.SecondEndpointLost | src/quicsy_server.cc:1759-1797 | a batch of two packets that differs between the two ways to send |
| CidRouting.ReachableRoutes | src/quicsy_server.cc:2305-2394 | in every reachable state the lookup assertion holds, each handler is keyed by its own ID, and every ID in the library's list leads to its connection |
| CidRouting.ReachableOrigins | src/quicsy_server.cc:2374-2384 | in every run, the destination ID with which a client first addressed a connection leads to it, if and only if the ID was not erased since with another connection that had it as its first destination or its preferred address |
| CidRouting.FreshOrigins | src/quicsy_server.cc:2374-2384 | so, if clients choose destinations that have never been in use, each leads to its connection from the packet that opens it until the connection is removed |
| CidRouting.ErasedOrigin | src/quicsy_server.cc:2800-2813 | a run in which removing one connection takes the destination of another with it |
| CidRouting.RemovedIsGone | src/quicsy_server.cc:2800-2813 | after `remove` no destination leads to the connection, and those of the others still do |
| CidRouting.CommitKeeps | src/quicsy_server.cc:2350-2384 | committing a new connection keeps the invariant |
| CidRouting.DroppedKeeps | src/quicsy_server.cc:2350-2372 | a handler that is dropped keeps the invariant if and only if it has retired every ID it issued; the IDs left are exactly those that trip the assertion |
| CidRouting.DroppedIdBreaksLookup | src/quicsy_server.cc:2392-2393 | an input for which the assertion fails |
| CidServer.Server.OnRead | src/quicsy_server.cc:2305-2417 | one packet changes the maps as specified, keeps the invariants and passes the assertion; the destination of a packet that opened a connection leads to it from then on, and the destinations of the others lead where they did |
| CidServer.Server.Remove | src/quicsy_server.cc:2800-2813 | erases exactly the entries of the connection |
| CidServer.Server.Disconnect | src/quicsy_server.cc:2062-2079 | the loop terminates with both maps empty |
| DynWindow.FindDynLength | src/quicsy_server.cc:273-293 | the exact decimal value, if the path is digits and the value is at most the limit and 2^62-1; -1 otherwise |
| DynWindow.LengthRoundTrip | src/quicsy_server.cc:273-293 | a printed number asks for itself, up to the limits; a path with anything but digits asks for nothing |
| DynWindow.WindowConserved | src/quicsy_server.cc:312-358 | in every interleaving of reads and acknowledgements: produced and left add up to the length, in flight is produced less acknowledged and bounded, the end is announced exactly with the last byte |
| DynWindow.AcksResume | src/quicsy_server.cc:1150-1164 | a blocked stream is resumed exactly when the acknowledgements bring it below the mark, and there are bytes in flight for that |
| DynWindow.NoStall | src/quicsy_server.cc:312-334 | a stream that has not ended makes progress or waits for bytes in flight |
| DynWindow.Stream.StartResponse | src/quicsy_server.cc:428-485 | a generated response starts with the window of its length |
| DynWindow.Stream.DynReadData | src/quicsy_server.cc:312-346 | one read is one step of the window; what it answers |
| DynWindow.Stream.Acked | src/quicsy_server.cc:1150-1164 | one acknowledgement is one step of the window; the stream is resumed below the mark, which for a blocked one is exactly when it is no longer blocked |
| CryptoQueue.QueueIsSuffix | src/quicsy_server.cc:1977-1995 | under any submissions and acknowledgements the queue is the submitted stream from the acknowledged offset on, no byte beyond the highest acknowledged end is dropped, and no buffer below it stays |
| CryptoQueue.Crypto.RemoveTxCryptoData | src/quicsy_server.cc:1977-1995 | pops exactly the wholly acknowledged buffers; the length returned and the length left add up |
| CryptoQueue.Crypto.WriteHandshake | src/quicsy_client.cc:1238-1246 | appends what is submitted |
| RetryToken.TokenRoundTrip | src/quicsy_server.cc:2596-2634 | a generated token is accepted from the same address if and only if the ID has a legal length and ten seconds have not passed, and yields the ID |
| RetryToken.AcceptedTokenIsBound | src/quicsy_server.cc:2636-2733 | a token is accepted with an ID if and only if it decrypts under the presented address to that address, a time that is not stale and that ID, which has a legal length |
| RetryToken.OtherAddressRefused | src/quicsy_server.cc:2708-2713 | a plaintext made for another address is refused |
| RetryToken.StaleIsOld | src/quicsy_server.cc:2716-2729 | unless the 64-bit clock wraps, stale means more than ten seconds old |
| ClientSend.Client.OnWrite | src/quicsy_client.cc:1099-1127 | the pending packet goes first, and the library is not asked for another while it cannot; each packet takes one send, in order; it returns without an error only if there is no order to exit, and then with nothing pending; it disconnects exactly on a fatal send of the old packet, an error of the libraries, or the order to exit, and then sends exactly the closing packet that the library writes and the socket takes; the HTTP connection has been told of every byte taken |
| ClientSend.Client.WriteStreams | src/quicsy_client.cc:1129-1227 | each packet is sent before the next is written; a blocked send leaves exactly that packet pending; which answer of the socket or the libraries ends it, and how |
| ClientSend.SettledIs | src/quicsy_client.cc:1466-1469 | the answer of a send is the first that is not an interruption |
| ClientSend.Client.SendPacket | src/quicsy_client.cc:1455-1491 | interrupted sends are repeated; the whole buffer is sent, or it stays as it is |
| ClientSend.Client.Disconnect | src/quicsy_client.cc:1493-1531 | a pending packet is discarded, and the closing packet is sent if and only if the connection is not closing yet, the library writes one and the socket takes it |
| StrReplace.StrReplace | src/abr/utils.c:7-67 | null exactly when there is nothing to replace or no memory; otherwise the buffer has exactly the size of the replaced string and its terminator, and holds them, with no other terminator in it |
| StrReplace.CountOccurrences | src/abr/utils.c:36-41 | the first pass counts the occurrences that the second replaces |
| StrReplace.CopyReplaced | src/abr/utils.c:55-63 | the second pass fills the buffer exactly |
| StrReplace.FindFirst | src/abr/utils.c:28-40 | `strstr` finds the first occurrence if there is one |
| StrReplace.ReplaceIsJoin | src/abr/utils.c:36-63 | replacing is cutting at every occurrence and joining with the replacement |
| StrReplace.SplitLeftmost | src/abr/utils.c:36-63 | the occurrences are the leftmost ones, and none is left |
| Hexdump.Hexdump | src/util.cc:171-217 | the text of the dump, read back, is the source, sixteen bytes a line; the last line is the length; a star stands for blocks that repeat the one before it, and no other block is printed twice in a row; every line has its columns at their places and its characters in the last |
| Hexdump.BlockLegible | src/util.cc:203-215 | the last column shows the printable characters, and full stops for the others |
| Hexdump.BlockAligned | src/util.cc:191-215 | the columns of a line: an offset, two blanks, and two groups of cells, each padded to its width |
| Hexdump.Hexdump8 | src/util.cc:157-169 | up to eight bytes, padded to the width of eight |
| Hexdump.BlockReads | src/util.cc:191-215 | a printed line determines its offset and its bytes |
| Numbers.FormatUint | include/quicsy/util.h:195-209 | the decimal digits |
| Numbers.DigitsSpell | include/quicsy/util.h:195-209 | they spell the number, without leading zeros |
| Numbers.ParseUintInternal | src/util.cc:332-355 | the value of the leading digits and where they end, unless there is nothing or it exceeds 64 bits |
| Numbers.ParseUintExact | src/util.cc:358-364 | accepts exactly the non-empty digit strings of 64-bit values |
| Numbers.ParseUintIecExact | src/util.cc:366-401 | accepts exactly digits and a unit whose product fits 64 bits |
| Numbers.ParseDurationExact | src/util.cc:403-455 | the same for durations |
| Numbers.UintRoundTrip | src/util.cc:331-364 | parsing undoes printing on all 64-bit values |
| Numbers.UintIecRoundTrip | include/quicsy/util.h:214-225 | parsing undoes printing with the largest exact size unit |
| Numbers.DurationRoundTrip | src/util.cc:311-329 | parsing undoes printing with the largest exact time unit |
| Numbers.LargestIecUnit | include/quicsy/util.h:214-225 | the size unit printed is the largest that divides the number |
| Numbers.LargestDurationUnit | src/util.cc:311-329 | the time unit printed is the largest that divides the number; zero is in nanoseconds |
| Numbers.UnitAlone | src/util.cc:366-455 | a unit without digits is accepted as zero |

## Left out

- HttpParser.HttpParser.Execute: calls are at most 2^32 - 160 KiB long, so that the 32-bit `nread` does not wrap; after a pause the exact header count leaves out the byte that is read again.
- HttpPause.PausesUnseen: `nread` itself may differ, because a byte that is read again is counted again, so the header limit has to be out of reach by two bytes per call.
- HttpSplit.SplitInvariance: `nread` itself may differ between the cuts, so the header limit has to be out of reach by one byte per call.
- HttpFields.FreeLine: which flags a line sets is not part of it; that is said by `NamesExact` together with `ConnectionExact` and `ChunkedExact`.
- HttpOptions.ConnectionExact: a value on one line; a folded Connection value is not covered.
- HttpChunked.ChunkedRoundTrip: a Content-Length among the trailer fields is excluded, as section 4.1.2 of RFC 7230 does; each field is one line.
- HttpMessage.MessageRoundTrip: the printed form has single spaces and CR LF; requests of version 0 and bodies' trailers that the parser interprets are excluded, a Connection field is one line, and `on_headers_complete` gives the same answer whatever the record; other spellings of the lines are the subject of `RequestLineExact`, `StatusLineExact`, `FieldLineExact` and `FoldedReads`.
- HttpMessage.PipelineRoundTrip: `on_headers_complete` answers zero.
- HttpRequestLine.RequestLineExact: `on_headers_complete` answers 0, 1 or 2, as it is called within a line that no headers follow.
- HttpGrammar.RequestGrammar: request parsers only; a response parser also begins a message at each line end before a response.
- UrlText.WebUrlAccepted: host names only; bracketed addresses are in `ComposedSplitsBack`.
- UrlParse.ParsedUrl.Parse: buffers are at most 65535 bytes, the range of the 16-bit offsets; `strtoul` stops at the end of the buffer.
- PacketBatch.Handler.WriteStreams: what `handle_error` does after a failure is left out; a send that fails in the kernel counts as sent, as the code ignores it.
- ClientSend.Client.OnWrite: a list of socket answers that runs out stands for a socket that would block; changing the local address is left out.
- CidRouting.ReachableRoutes: new IDs are fresh, only IDs in the library's list are retired, and a dropped handler has retired what it issued.
- DynWindow.WindowConserved: the HTTP library does not read a stream that has ended or waits, and acknowledges only what was produced.
- RetryToken.TokenRoundTrip: encryption and key derivation are parameters, of which only that decryption undoes encryption is assumed; the host is little-endian, and the capacity of the fixed buffers is not modelled.
- StrReplace.StrReplace: the `int` lengths do not overflow, and the replacement is not null.
- CryptoQueue.QueueIsSuffix: offsets are unbounded integers.
- Non-strict parser mode, callbacks that change the parser, error names and reason phrases.
- Sockets, timers, signals, files, logging and TLS; ngtcp2, nghttp3 and the ciphers themselves.
- `format_hex` and `decode_hex`, `format_durationf`, MIME types and level conversions: easy members.
- `src/abr/mpd_parse.c`, `get_duration`, `src/abr/adaptation.c`, `streaming/` and `scripts/`: XML, floating point and demonstration code.
