# hiper: a verified model of its protocol core

hiper is a C++ network library. This project models five of its components in Dafny and proves what they are for:

1. **The streaming HTTP/1.x parser** (`hiper/http/http-parser/http_parser.cc`), with the request printer and the
   parser callbacks built around it (`hiper/http/http.cc`, `hiper/http/http_parser.cc`).
   - `HttpStep` is a reference machine that takes one byte at a time and has no marks, no runs and no buffers.
     `HttpRun` runs it over a string and collects callbacks, joining the pieces of one string.
   - `HttpExecute.HttpParser` is the loop as the source has it: the mutable parser fields, the inner loops that run
     over header names, header values and bodies, the `h_general` skip, the in-buffer marks, late counting of
     `nread` with its 32-bit arithmetic, and the flush at the end of a buffer. It is proved to refine the reference
     machine, and what the parser promises is then proved on that machine:
     - for every input: that cutting it does not matter (`HttpFragments`), that no internal assert can fail
       (`HttpInvariant`), that callbacks come in order and hand over no byte out of place (`HttpProtocol`), that blanks,
       blank lines and carriage returns make no difference where they should not (`HttpSpelling`);
     - for messages, from their text: exact lengths (`HttpLength`) and header recognition (`HttpNames`), request, status
       and header lines (`HttpRequestLine`, `HttpStatusLine`, `HttpHeaderLines`), which connection values name a keyword
       (`HttpConnection`), chunked decoding with trailers (`HttpChunked`), which body follows and whether the connection
       stays open (`HttpFraming`, `HttpHeadEnd`), whole messages and pipelines of them (`HttpMessages`, `HttpPipeline`).
   - `HttpUrl` is `http_parser_parse_url` with its two machines, and `HttpAuthority` what it makes of URLs with a server;
     `HttpRequests` is `HttpRequest::dump` and the callbacks that rebuild a request; `HttpRoundTrip` joins all of them:
     print, then parse.
2. **ByteArray** (`hiper/base/bytearray.cc`): a linked list of blocks in the heap with a cursor, proved to be one
   flat sequence of bytes (`ByteArrays`, `ByteRuns`); the typed codecs over it (`ByteCodec`, `ByteTyped`); and its
   scatter/gather views, as the socket stream uses them (`Streams`).
3. **The timer manager** (`hiper/base/timer.cc`): an ordered set keyed by a field that changes, the wake-up
   protocol with the poller, and the life cycle of timers (`Timers`), over whole runs (`TimerRuns`).
4. **Query and form parameters** (`hiper/http/http.cc`, `hiper/base/util.cc`): percent-encoding and PARSE_PARAM
   (`UrlParams`), the parameters of a request read from query and body (`HttpParams`), and the case-insensitive maps
   of the HTTP classes (`CaseMap`).
5. **The scheduler's run loop** (`hiper/base/scheduler.cc`, `hiper/base/scheduler.h`): which task a worker takes, and
   the accounting of tasks and active workers under any interleaving (`Scheduling`).

`dafny verify dfyconfig.toml` checks everything.

## What the proofs found

- **A legal request that is still refused.** A request that is not a websocket handshake, with a
  `proxy-connection` header naming `upgrade` and an `upgrade` header, is printed and then read back completely, yet
  `HttpRequestParser::execute` reports `HPE_UNKNOWN`, because dump leaves `proxy-connection` in and the parser treats
  it like `connection`. `PrintThenParse` says exactly when this happens, `HttpConnection.SwitchesByText` says the same
  in terms of the text of the values, `ProxyUpgradeRefused` is a request it happens to, and `OrdinaryRequest` a
  condition on the header names that rules it out.
- **In a connection list a tab is no blank, a comma can get lost, and an empty word hides the rest.** "keep,upgrade"
  does not name upgrade, and neither does "close,,upgrade" (`HttpConnection.CommaLost`,
  `HttpConnection.EmptyWordHides`; `HttpConnection.TextNames` is the whole rule, for close, keep-alive and upgrade).
- **A folded transfer-encoding value never announces chunks.** The fold starts the value anew and forgets the match, so
  "chunked" with a second, even blank, line behind it is not seen (`HttpSpelling.FoldedChunkedLost`).
- **The first byte of a header value is not looked at.** All other bytes of names, values, targets and reasons that
  reach a callback are legal there; that one can be a control byte (`HttpProtocol.CallbacksInOrder`).
- **Bytes from 0x80 up pass for hexadecimal zeros** in chunk sizes: the `unhex` table has 256 entries of which only
  the first 128 are written down (`HttpLength.WhatPassesForHex`). "Equals its hex value" holds with these bytes read as
  zeros.
- **An empty string at the very end of the blocks cannot be read back.** `read` of zero bytes with the cursor at the
  end of the capacity follows a null pointer. The typed round trip therefore holds except when the last value is an
  empty string and the bytes written fill their blocks exactly (`ByteCodec.TypedRoundTrip`, with the smallest such
  input in `ByteTyped.EmptyStringAtBlockEnd`).
- **The value skip passes over one byte unseen** when it stops at the header limit instead of at the end of the line.
  The header section has then outgrown its limit, so the call still ends in an error; which error, and where, can
  differ from a call that sees the bytes in smaller pieces. `HttpFragments.FragmentationIndependence` is stated for
  header sections within the limit for this reason, and `HttpExecute.HttpParser.Execute` says what holds beyond it.
- **A timer made with a null callback** is pending but cannot be cancelled: cancel says false and it still fires. The
  rules "pending exactly while it has a callback" and "nothing fires after its cancel" hold of the timers made with a
  callback, and of no others (`Timers.TimerManager.Armed`, `Timers.ToCome`).
- **`stopping()` does not cover the hand-back of a ready fiber.** The worker counts itself out before it queues the
  fiber again (`Scheduling.HandBackWindow`); that is the only step that can make a true `stopping()` false again
  (`Scheduling.StoppingLasts`).

## Model

| member | source | states |
|---|---|---|
| HttpExecute.HttpParser.Execute | hiper/http/http-parser/http_parser.cc:638-2084 | One call on any buffer either ends in the state and with the callbacks of the per-byte machine (pieces joined, bytes read equal), or reports the error that machine finds at the same byte; past the header limit it reports some error. A parser in error reads nothing; an empty buffer is the end of the connection |
| HttpExecute.HttpParser.FieldRun | hiper/http/http-parser/http_parser.cc:1248-1382 | The inner loop over header-name bytes leaves parser, marks and callbacks where taking the bytes one at a time would |
| HttpExecute.HttpParser.ValueRun | hiper/http/http-parser/http_parser.cc:1469-1668 | The same for header values, with their matchers, the length accumulator and the counting of `nread` at the end |
| HttpExecute.HttpParser.SkipValue | hiper/http/http-parser/http_parser.cc:1498-1516 | Skipping plain value bytes up to the end of the line takes no other steps than the reference machine, or reports the byte that may not stand there; the byte passed over unseen is one beyond the header limit |
| HttpExecute.HttpParser.BodyRun | hiper/http/http-parser/http_parser.cc:1873-1914 | Taking all body bytes a buffer holds at once, with the length reduced once, agrees with taking them one by one |
| HttpExecute.HttpParser.Flush | hiper/http/http-parser/http_parser.cc:2054-2084 | At the end of a buffer at most one mark is left, and the one callback made for it completes what has been reported to exactly what has been read |
| HttpExecute.StepTracks | hiper/http/http-parser/http_parser.cc:105-152 | With marks set and callbacks made by the macros, what has been reported and what is still marked always add up to the callbacks of the reference machine |
| HttpMarks.MarksFollow | hiper/http/http-parser/http_parser.cc:2056-2068 | Whatever a byte does, marks stay those the next state allows: at most one, and none outside a string or body |
| HttpFragments.FragmentationIndependence | hiper/http/http-parser/http_parser.cc:638-2084 | However bytes are cut into non-empty buffers, one call over all of them gives the same parser state, the same callbacks up to joining pieces, and the same error at the same byte |
| HttpFragments.CallsRun | hiper/http/http-parser/http_parser.cc:653-709 | A series of calls leaves the parser where one run of the reference machine over all the bytes leaves it |
| HttpFragments.CutsAgree | hiper/http/http-parser/http_parser.cc:638-2084 | For input without an error, calls on any pieces of it end where the byte machine ends on the whole, with its callbacks joined and its byte count |
| HttpInvariant.StepInv | hiper/http/http-parser/http_parser.cc:708-2052 | One byte, in any state and of any value, keeps the invariant on states, header states, matcher index, lengths and flags |
| HttpInvariant.NoAssertFails | hiper/http/http-parser/http_parser.cc:1925-2045 | For every input from a fresh parser the asserts hold when a byte reaches the switch: legal header states, `nread` 1 at a chunk-size start, F_CHUNKED in all chunk states, a body length that is neither 0 nor the sentinel |
| HttpInvariant.Reachable | hiper/http/http-parser/http_parser.cc:2148-2156 | Every state reached from a fresh parser satisfies the invariant |
| HttpProtocol.CallbacksInOrder | hiper/http/http-parser/http_parser.cc:638-2084 | For every input from a fresh parser, well-formed or not, the callbacks follow the order of a message: begin, target or reason, names each with its value, one headers_complete, then a body, or chunks of exactly the size announced and a trailer, and one message_complete; and every byte they hand over is one its string can contain, but for the first of a value |
| HttpProtocol.StepFollows | hiper/http/http-parser/http_parser.cc:708-2052 | Every byte in every state makes only callbacks that may come where the parser stands, and leaves it behind them |
| HttpProtocol.InOrderFromAnyCut | hiper/http/http-parser/http_parser.cc:657-681 | The same of the joined callbacks of any series of calls, and of what the end of the connection adds |
| HttpSpelling.DropPassedOver | hiper/http/http-parser/http_parser.cc:713-736 | Blank lines in front of a message, blanks in front of target, protocol, status or value, and the bytes of a chunk extension can be taken out of any input: same callbacks, same outcome, same state but for the bytes counted |
| HttpSpelling.DropCarriageReturn | hiper/http/http-parser/http_parser.cc:1057-1087 | Wherever a line can end, a line feed alone does what carriage return and line feed do, for all input that follows |
| HttpSpelling.FoldedChunkedLost | hiper/http/http-parser/http_parser.cc:1681-1711 | A folded transfer-encoding value sets no flag, whatever its text; its parts are reported as two values |
| HttpLength.ContentLengthExact | hiper/http/http-parser/http_parser.cc:1529-1557 | Decimal digits are accepted as Content-Length exactly when their value is at most 18446744073709551609, and then the parser holds that value, which is below the sentinel; otherwise the error is HPE_INVALID_CONTENT_LENGTH |
| HttpLength.ChunkSizeExact | hiper/http/http-parser/http_parser.cc:1952-1975 | A chunk size is accepted exactly when its value is at most 18446744073709551599, and then held exactly, below the sentinel |
| HttpLength.DecimalPlaces | hiper/http/http-parser/http_parser.cc:1529-1557 | The decimal value by places: digits in front count tens for each digit behind them |
| HttpLength.HexPlaces | hiper/http/http-parser/http_parser.cc:1952-1975 | The hexadecimal value by places, in sixteens |
| HttpNames.HeaderNameExact | hiper/http/http-parser/http_parser.cc:1212-1378 | Behind the colon the header state is content-length, transfer-encoding, connection or upgrade exactly when the whole name is that header's (or proxy-connection) without regard to case; the name is reported whole |
| HttpNames.ChunkedValueExact | hiper/http/http-parser/http_parser.cc:1566-1574 | An unfolded transfer-encoding value sets F_CHUNKED exactly when it is "chunked" without regard to case followed only by spaces |
| HttpChunked.HexRead | hiper/http/http-parser/http_parser.cc:224-241 | A number printed in hexadecimal digits of either case is read as that number |
| HttpChunked.DecodeInvertsEncode | hiper/http/http-parser/http_parser.cc:1916-2045 | For any list of non-empty chunks, written with any hexadecimal sizes, extensions and trailer lines as in section 4.1 of RFC 7230, the callbacks are those chunks with their sizes, in order, the trailer's lines, and one message_complete, at the last byte |
| HttpChunked.DecodedFromAnyCut | hiper/http/http-parser/http_parser.cc:1916-2045 | The same through http_parser_execute: cut into any buffers, no call fails, and the joined callbacks are the chunks, the trailer and one completion, with the payload as body |
| HttpChunked.DeliveredBody | hiper/http/http-parser/http_parser.cc:2007-2028 | The body bytes of these callbacks are the concatenation of the chunks |
| HttpChunked.DataRun | hiper/http/http-parser/http_parser.cc:2007-2028 | At every point inside a chunk the bytes delivered and `content_length` add up to the declared size |
| HttpPipeline.MessageIndependence | hiper/http/http-parser/http_parser.cc:1826-1923 | After a completed keep-alive message all further input makes the callbacks a fresh parser makes for it, fails at the same byte, and ends in a state alike |
| HttpPipeline.CleanIndependence | hiper/http/http-parser/http_parser.cc:1831-1923 | When the first message had no chunk trailer, nothing at all is carried over: the byte that completes it leaves `nread` at 0, and the second is read as by a parser just initialised |
| HttpPipeline.RunAlike | hiper/http/http-parser/http_parser.cc:708-2052 | Two parsers that agree on the fields their state still uses read any bytes alike |
| HttpRequestLine.MethodRead | hiper/http/http-parser/http_parser.cc:920-1014 | Every method name followed by a blank is read as that method, through all re-matching of shared prefixes |
| HttpRequestLine.UrlRead | hiper/http/http-parser/http_parser.cc:1016-1087 | A URL that parse_url_char accepts and that may end there is reported whole, once |
| HttpRequestLine.VersionRead | hiper/http/http-parser/http_parser.cc:1089-1196 | The version behind it is read back digit by digit |
| HttpRequestLine.RequestLineRead | hiper/http/http-parser/http_parser.cc:920-1196 | A request line of any method, acceptable URL and version is read as what it says: message_begin, the URL whole, and the parser at the first header line with method and version |
| HttpRequestLine.OldLineRead | hiper/http/http-parser/http_parser.cc:1070-1081 | A request line without a version is one of HTTP 0.9 |
| HttpStatusLine.StatusLineRead | hiper/http/http-parser/http_parser.cc:763-918 | A status line of any version, code up to 999 and reason is read as what it says |
| HttpStatusLine.StatusCodeExact | hiper/http/http-parser/http_parser.cc:843-886 | A status code is accepted exactly when its value is at most 999, and then held exactly |
| HttpHeaderLines.LinesRead | hiper/http/http-parser/http_parser.cc:1198-1756 | Any number of header lines makes exactly their name and value callbacks, in order, and collects exactly their flags |
| HttpHeaderLines.AfterLinesFlags | hiper/http/http-parser/http_parser.cc:1690-1756 | Of any header lines but content-length: chunked is set exactly when some transfer-encoding line says "chunked", each of close, keep-alive and upgrade exactly when some connection or proxy-connection line names it, upgrade exactly when some upgrade header has a value |
| HttpConnection.NamesByText | hiper/http/http-parser/http_parser.cc:1576-1663 | For every value and each of close, keep-alive and upgrade: the matcher of connection tokens recognises the keyword exactly when the text names it, by words, blanks and commas, with the comma lost behind a keyword broken off and the list that ends at an empty word |
| HttpConnection.LinesByText | hiper/http/http-parser/http_parser.cc:1576-1711 | The same over any header lines: a keyword's flag follows from the text of some connection or proxy-connection line |
| HttpConnection.WholeWord | hiper/http/http-parser/http_parser.cc:1449-1459 | A value that is one keyword names that keyword and no other |
| HttpConnection.SwitchesByText | hiper/http/http-parser/http_parser.cc:1779-1789 | Header lines ask for another protocol exactly when the text of some connection or proxy-connection value names upgrade and some upgrade header has a value |
| HttpFraming.MessageFramed | hiper/http/http-parser/http_parser.cc:1757-2045 | Message framing, from the text of the header lines: behind any start line but CONNECT's, any header lines - a content-length anywhere among them, chunked transfer coding, or neither - and the body they announce (none for requests and for 1xx, 204 and 304; as many bytes as the length says; the chunks; all up to the end of the connection) make exactly their callbacks, with one completion, at the last byte; then the parser is between messages, dead or out of HTTP as version, close, keep-alive and upgrade in the text say |
| HttpFraming.ConnectFramed | hiper/http/http-parser/http_parser.cc:1785-1842 | A CONNECT request leaves HTTP at its empty line |
| HttpHeadEnd.BothFramingsRefused | hiper/http/http-parser/http_parser.cc:1768-1774 | Header lines that announce chunks and have a content-length are refused at their end, with HPE_UNEXPECTED_CONTENT_LENGTH |
| HttpHeadEnd.TwoLengthsRefused | hiper/http/http-parser/http_parser.cc:1426-1434 | A second content-length line is refused at its first digit, even if it says the same |
| HttpHeadEnd.AnswerDecides | hiper/http/http-parser/http_parser.cc:1800-1842 | Answered 1, on_headers_complete drops the body announced; answered 2, the parser leaves HTTP as well; any other answer but 0 is an error |
| HttpMessages.RequestFramed | hiper/http/http-parser/http_parser.cc:920-2045 | The same for whole requests from their first byte: method, URL, version, header lines and body, between messages exactly when the connection stays open: from 1.1 on unless some connection line names close, before only if one names keep-alive |
| HttpMessages.ResponseFramed | hiper/http/http-parser/http_parser.cc:763-2045 | The same for whole responses, from the status line on |
| HttpMessages.RestEnds | hiper/http/http-parser/http_parser.cc:657-681 | The end of the connection completes a message without a length, and no other |
| HttpMessages.Pipelined | hiper/http/http-parser/http_parser.cc:2111-2127 | Any number of requests one behind the other, all but the last keeping the connection open, make the callbacks of each in turn |
| HttpMessages.ConnectLeaves | hiper/http/http-parser/http_parser.cc:920-1842 | A CONNECT request with its host and port, from its first byte to the exit |
| HttpMessages.EitherKind | hiper/http/http-parser/http_parser.cc:726-761 | A parser of either kind decides by the first two bytes, and is then the parser of that kind, for all input that follows |
| HttpUrl.ParsedUrl.Parse | hiper/http/http-parser/http_parser.cc:2345-2466 | The two loops over the URL and the port loop fill the fields with exactly the split the two machines define, or fail exactly when there is none |
| HttpUrl.ParsedUrl.ParseHost | hiper/http/http-parser/http_parser.cc:2258-2338 | The loop over the server run ends in success exactly in the states that can end a host, with the fields of that pass |
| HttpUrl.ParsedUrl.ReadPort | hiper/http/http-parser/http_parser.cc:2440-2463 | The port is the decimal value of its digits, or an error when that exceeds 65535 |
| HttpUrl.SplitUrlSound | hiper/http/http-parser/http_parser.cc:2345-2466 | On success all fields are non-empty runs inside the buffer, disjoint and in URL order; user info, host and port lie inside the server run; the port is the value of its digits |
| HttpAuthority.UrlSplits | hiper/http/http-parser/http_parser.cc:2345-2466 | A URL printed from schema, user information, host name or bracketed address with zone, port, path, query and fragment, each over its grammar's characters, is split into exactly these components, with the port as a number; it fails exactly when the port exceeds 65535 |
| HttpAuthority.ConnectSplits | hiper/http/http-parser/http_parser.cc:2345-2466 | For CONNECT the server alone is split exactly when it has a port up to 65535 and no user information, and then into that host and port |
| HttpAuthority.UrlsReadable | hiper/http/http-parser/http_parser.cc:1016-1087 | Such URLs can stand in a request line |
| HttpUrl.PassOverKeeps | hiper/http/http-parser/http_parser.cc:490-636 | After any number of bytes the fields are in order and the field of the current state ends at the cursor |
| HttpTarget.UrlComesBack | hiper/http/http_parser.cc:151-178 | Splitting inverts printing: on_url finds path, query and fragment of the printed request target as they were |
| HttpRequests.HttpRequest.Dump | hiper/http/http.cc:183-212 | The text written piece by piece is the start line, then one line for each header kept and each the printer adds, a blank line and the body |
| HttpRequests.HttpRequestParser.Execute | hiper/http/http_parser.cc:234-252 | The request after a call is the one the call's callbacks build, up to one that fails; the upgrade flag, as it stands when the parser stops, or errno becomes the error, also for a parser already in error, which reads nothing; bytes not read move to the front of the buffer and nothing else in it changes |
| HttpRoundTrip.PrintThenParse | hiper/http/http.cc:183-212 | For every well-formed request the parser reads all of dump's text in one call without an error, the callbacks restore method, version, path, query, fragment, body and headers apart from the printer's own, and the protocol changes exactly when the printed headers ask for it |
| HttpRoundTrip.DumpThenParse | hiper/http/http_parser.cc:34-40 | The same on the objects: dump, a buffer, a new HttpRequestParser, execute. It reports an error exactly when the text asks for another protocol |
| HttpRoundTrip.ReadBack | hiper/http/http_parser.cc:114-220 | The printed text makes exactly the script of callbacks of the request |
| HttpRoundTrip.AsRequest | hiper/http/http.cc:183-212 | The printed text is that of a request of the protocol: its start line, header lines that announce its body, the body |
| HttpRoundTrip.CloseDecides | hiper/http/http.cc:192-196 | What `close` of a printed request says is what becomes of the connection behind it, for any version, if no header of the map speaks of the connection |
| HttpRoundTrip.PrintedInTurn | hiper/http/http.cc:183-212 | Any number of printed requests sent over one connection are read back in turn |
| HttpRoundTrip.PiecesAlike | hiper/http/http_parser.cc:214-220 | For text in one buffer, body pieces do not matter to the rebuilt request, since on_body appends |
| HttpRoundTrip.OrdinaryRequest | hiper/http/http.cc:192-202 | Without a proxy-connection header, or without an upgrade header, a printed request never changes protocol |
| HttpRoundTrip.ProxyUpgradeRefused | hiper/http/http_parser.cc:236-239 | A legal request that is read to its end and restored completely, with the upgrade flag set for which execute reports an error |
| CaseMap.EmplaceFind | hiper/http/http.cc:107-115 | An assignment or insert into the case-insensitive map changes what is found under that one key, in any spelling, and nothing else; insert keeps the first value |
| CaseMap.EmplaceSorted | hiper/http/http.cc:66-69 | The map stays ordered by strcasecmp |
| CaseMap.BelowIs | hiper/http/http.cc:66-69 | The order of strcasecmp decides at the first difference, a prefix before what goes on |
| ByteArrays.ByteArray.Write | hiper/base/bytearray.cc:402-439 | The bytes go over the flat sequence at the cursor, nothing else changes, and the array grows by whole blocks as far as needed |
| ByteArrays.ByteArray.Read | hiper/base/bytearray.cc:444-475 | The next bytes of the flat sequence, or std::out_of_range exactly when fewer are filled, or a null pointer exactly for no bytes at the end of the capacity |
| ByteArrays.ByteArray.SetPosition | hiper/base/bytearray.cc:508-525 | The cursor goes anywhere within the capacity, bytes up to there count as filled, contents stay; beyond it nothing changes |
| ByteArrays.ByteArray.Clear | hiper/base/bytearray.cc:385-397 | Only the first block is left, with nothing filled |
| ByteArrays.ByteArray.AddCapacity | hiper/base/bytearray.cc:572-602 | There is room for what was asked, contents and position stay, and a cursor at the end moves to the first new block |
| ByteArrays.ByteArray.CursorBlock | hiper/base/bytearray.cc:508-525 | The cursor is block number position / base size, and null exactly when the position is the capacity |
| ByteArrays.WriteOverlays | hiper/base/bytearray.cc:402-439 | Writing into the blocks is writing into the flat sequence of filled bytes |
| ByteRuns.PerformAll | hiper/base/bytearray.cc:385-525 | Any run of write, read, setPosition and clear gives its caller what the same run on one flat sequence gives |
| ByteRuns.LastWriteIsRead | hiper/base/bytearray.cc:402-475 | In any run a read returns for each byte what was last written there, through growth and block boundaries |
| ByteArrays.ByteArray.GetReadBuffers | hiper/base/bytearray.cc:631-662 | The segments concatenate to exactly the next min(len, read size) bytes |
| ByteArrays.ByteArray.GetWriteBuffers | hiper/base/bytearray.cc:703-733 | The segments have total length len, lie in different blocks and are exactly the room behind the cursor; contents stay |
| ByteArrays.ByteArray.ApartSegments | hiper/base/bytearray.cc:703-733 | No two segments overlap |
| ByteArrays.ByteArray.GatherSegments | hiper/base/bytearray.cc:631-662 | Read in order, the segments from any byte on are the flat sequence's bytes from there |
| Streams.SocketStream.Read | hiper/streams/socket_stream.cc:34-45 | However much recv delivers into the segments, the array is as if write had been given those bytes |
| Streams.SocketStream.Write | hiper/streams/socket_stream.cc:54-65 | What send takes from the segments are the bytes behind the cursor, which follows |
| Streams.SocketStream.ReadFixSize | hiper/base/stream.cc:25-36 | For any sequence of partial transfers, success means that exactly the next n stream bytes have gone into the array; failure that a known shorter part has |
| Streams.SocketStream.WriteFixSize | hiper/base/stream.cc:53-64 | Success means that exactly the n bytes behind the cursor were sent, in order |
| ByteTyped.WriteThenRead | tests/bytearray_test.cc:7-32 | Any sequence of fixed-width integers, varints, zigzag varints and length-prefixed strings, written to a new array and read from position 0 with the matching calls, comes back with read size 0, for any block size and byte order; with the exact exception |
| ByteCodec.TypedRoundTrip | hiper/base/bytearray.cc:68-383 | The same on the flat sequence |
| ByteTyped.EncodeUint | hiper/base/bytearray.cc:163-191 | The loop fills `tmp` with the varint and never past its 5 or 10 bytes |
| ByteTyped.VarintBound | hiper/base/bytearray.cc:163-191 | A varint takes 1 to 5 bytes for 32 bits and 1 to 10 for 64 |
| ByteCodec.UintBack | hiper/base/bytearray.cc:296-331 | Reading a varint gives the value written and stops behind it |
| ByteCodec.ZigzagInverse | hiper/base/bytearray.cc:126-154 | Zigzag encoding is 2v for v from 0 on and -2v - 1 below, on the whole signed range, the most negative value included, and decoding inverts it |
| ByteCodec.FixedInverse | hiper/base/bytearray.cc:248-289 | A fixed-width read gives back the value, for either byte order of array and host |
| ByteCodec.FixedBytesAt | hiper/base/bytearray.cc:68-124 | Byte i of a fixed-width number on the wire: of a big-endian array the one of weight 256^(n-1-i), of a little-endian one that of weight 256^i |
| ByteTyped.WriteFixed | hiper/base/bytearray.cc:68-124 | The bytes written at the cursor are these, whatever the order of the host |
| ByteCodec.VarintAt | hiper/base/bytearray.cc:163-191 | Byte i of a varint holds the seven bits of weight 128^i, and the mark that more follow |
| ByteTyped.PrefixOnWire | hiper/base/bytearray.cc:207-229 | The length in front of a string, byte for byte |
| ByteCodec.HostDoesNotMatter | hiper/base/endian.hpp:23-41 | With byteswap the bytes written depend on the array's order only, not on the host's |
| ByteTyped.ReadItem | hiper/base/bytearray.cc:236-383 | A typed read over the blocks agrees with reading the flat sequence, its failures included |
| ByteTyped.EmptyStringAtBlockEnd | hiper/base/bytearray.cc:349-356 | An empty string at the end of the blocks is read through a null pointer |
| Timers.TimerManager.LowerBound | hiper/base/timer.cc:250-270 | The first timer that is not before the key, in the order by expiration and address |
| Timers.TimerManager.Insert | hiper/base/timer.cc:118-129 | The set stays in order and gains exactly this timer |
| Timers.TimerManager.Erase | hiper/base/timer.cc:25-37 | find succeeds exactly for a timer in the set, which leaves it, though its key may have changed while outside |
| Timers.TimerManager.AddTimer | hiper/base/timer.cc:101-129 | The new timer becomes pending, and onTimerInsertedAtFront is called exactly when it is the first and nobody has notified the poller since it last asked; no wake-up is lost |
| Timers.TimerManager.Cancel | hiper/base/timer.cc:25-37 | True exactly when the timer was pending and was made with a callback; such a timer is pending no longer |
| Timers.TimerManager.Refresh | hiper/base/timer.cc:45-59 | A pending timer moves to now + ms, which is never earlier, so no wake-up is lost although no notification is sent |
| Timers.TimerManager.Reset | hiper/base/timer.cc:70-98 | New period and start as asked; onTimerInsertedAtFront is called exactly when the timer is now the first and nobody has notified the poller since it last asked |
| Timers.TimerManager.GetNextTimer | hiper/base/timer.cc:167-184 | The time to the earliest expiration, 0 when it has passed, ~0 when none is pending; the deadline the poller knows from here on |
| Timers.TimerManager.FirstLater | hiper/base/timer.cc:209-216 | Whatever the address of the timer made for the search, lower_bound and the skip loop end at the first timer later than now |
| Timers.TimerManager.ListExpired | hiper/base/timer.cc:187-231 | Exactly the timers with expiration <= now fire, in order of expiration; later ones stay, recurring ones go back at now + ms, the others are done |
| TimerRuns.RunAll | hiper/base/timer.cc:25-231 | After any run of ticks, additions, notifications, cancels, refreshes, resets, getNextTimer, listExpiredCb and destructions, in any order: the poller has been notified since it last asked, or a thread is just about to, or no pending timer expires before the deadline it knows; a one-shot has fired at most once, nothing made with a callback has fired after its cancel, and every cancel has said whether the timer was pending |
| Timers.LifeCycle | hiper/base/timer.cc:25-37 | What a log of firings and cancels says when each event is right after those before it |
| UrlParams.DecodeInvertsEncode | hiper/base/util.cc:698-790 | UrlDecode(UrlEncode(s, b), b) is s for all byte strings (percent-encoding of section 2.1 of RFC 3986) |
| UrlParams.EncodedAlphabet | hiper/base/util.cc:698-720 | Encoded text never contains '&', '=' or ';' |
| UrlParams.ByteEncoded | hiper/base/util.cc:698-720 | One byte encoded: itself, or '+' for a blank if asked for, or '%' and its two hexadecimal digits |
| UrlParams.PlusForBlank | hiper/base/util.cc:708-711 | Encoded text has one '+' for each blank if asked for, and none if not |
| UrlParams.PlainText | hiper/base/util.cc:698-720 | Unreserved text is its own encoding |
| UrlParams.EscapeRead | hiper/base/util.cc:758-790 | An escape with hexadecimal digits of either case is the byte they say |
| UrlParams.UrlEncode | hiper/base/util.cc:698-720 | The loop computes the encoding |
| UrlParams.UrlDecode | hiper/base/util.cc:758-790 | The loop with its look-ahead computes the decoding, malformed escapes included |
| UrlParams.ParseParam | hiper/http/http.cc:215-232 | The do-loop ends on every text and inserts exactly the pairs found, the first value of a key staying |
| UrlParams.ParseInvertsJoin | hiper/http/http.cc:215-232 | Parsing key=UrlEncode(value) pairs joined by the separator gives back all pairs |
| UrlParams.ParamsComeBack | hiper/http/http.cc:215-232 | Every key, in any spelling, is found with the first value given for it, and no other key is found |
| UrlParams.TrimExact | hiper/http/http.cc:271 | Trim takes the blanks at both ends and nothing else |
| UrlParams.CookiesComeBack | hiper/http/http.cc:261-272 | A cookie header, "a=1; b=2", gives back the first value of each key |
| HttpParams.RequestParams.GetParam | hiper/http/http.cc:92-98 | On the first call a key has its first value in the query, failing that its first in a body whose content type names a form; what setParam stored comes before both; later calls read nothing again |
| HttpParams.RequestParams.InitBodyParam | hiper/http/http.cc:246-259 | The body is read once, and only for a content type that names the form type in any case |
| HttpParams.FormComesBack | hiper/http/http.cc:235-259 | Pairs joined and encoded into query and body are found again: each key with its first value in the two lists, the query's before the body's |
| Scheduling.Accounting | hiper/base/scheduler.cc:186-283 | Over any interleaving each entry pushed is in exactly one place: queued once, held by one worker, or done; and the counts are the workers between pop and decrement and the idle ones |
| Scheduling.StepInv | hiper/base/scheduler.cc:190-281 | Every step keeps this accounting |
| Scheduling.StoppingMeansQuiet | hiper/base/scheduler.cc:294-298 | A true stopping() means an empty queue, no worker with a task, and every entry done |
| Scheduling.CountsSuffice | hiper/base/scheduler.cc:226-281 | No count ever drops below zero: who holds a task or idles is counted |
| Scheduling.HandBackWindow | hiper/base/scheduler.cc:228-233 | stopping() can be true while a ready fiber is about to be queued again |
| Scheduling.HeldWhereAsked | hiper/base/scheduler.cc:197-201 | In every reachable state a task that names a thread is held by that worker only |
| Scheduling.Scheduler.Take | hiper/base/scheduler.cc:190-220 | The task taken is for this worker or any, and no fiber in EXEC; every one before it is for another thread or a fiber in EXEC, and none is taken exactly when all are; the others stay in order; it asks for a tickle exactly when a task was left behind it or one before it is for another thread |
| Scheduling.Scheduler.Finish | hiper/base/scheduler.cc:226-270 | The completion branches do what the step says and keep the accounting |
| Scheduling.Scheduler.ScheduleAll | hiper/base/scheduler.h:65-79 | A range is pushed in order, and a tickle is asked for exactly when the queue was empty |
| Scheduling.Scheduler.IsStopping | hiper/base/scheduler.cc:294-298 | True only with an empty queue and no worker between pop and decrement |

## Left out

- HttpExecute.HttpParser.Execute: callbacks other than on_headers_complete return 0, and that one returns the same answer each time; pausing is left out, and buffers are at most 2^31 - 1 bytes long. After an error only errno and byte offset are specified, and past the header limit only that there is an error.
- HttpFragments.FragmentationIndependence: header sections within the limit, because the bulk loops count later than a per-byte machine; calls after an upgrade exit are not parser input.
- HttpRoundTrip.PrintThenParse: CONNECT requests, whose target is an authority, versions with a part above 9, and header sections above 80 KiB or URLs above 65535 bytes, which the parser itself refuses. `close` and `websocket` are not taken from the text by the callbacks. Several buffers are left out: on_url and setHeader overwrite pieces instead of joining them.
- HttpRequests.HttpRequestParser.Execute: a URL above 65535 bytes counts as an error of on_url; when on_url fails, the bytes read and the parser's state other than errno and upgrade are not specified.
- HttpUrl.ParsedUrl.Parse: URLs above 65535 bytes, whose 16-bit offsets the source truncates.
- HttpPipeline.MessageIndependence: after chunk trailers the value of `nread` carried over is the parser's own; HttpPipeline.CleanIndependence is the case without trailers.
- HttpChunked.DecodeInvertsEncode: a trailer has no content-length line.
- HttpMessages.RequestFramed: header lines in one spelling, a blank behind the colon and carriage return and line feed at the end; other spellings lead to the same by HttpSpelling.DropPassedOver and HttpSpelling.DropCarriageReturn, up to the bytes counted. Folded values are left out but for HttpSpelling.FoldedChunkedLost and what HttpProtocol.CallbacksInOrder says of every input.
- HttpSpelling.DropCarriageReturn: callbacks made at the very byte that fails are not compared.
- HttpAuthority.UrlSplits: a '#' directly behind the server is refused by the source and is not printed; one in front of a fragment would be dropped.
- HttpNames.HeaderNameExact: names in one unbroken line, as the strict grammar has them.
- HttpParams.RequestParams.GetParam: initCookies is PARSE_PARAM with ';' and trimmed keys and is covered by UrlParams.CookiesComeBack only.
- The setter of max_header_size, `http_body_is_final`, the response printer, session handling, content-type negotiation.
- ByteArrays.ByteArray.Clear: giving memory back to the allocator is not modelled; the base size is positive.
- ByteArrays.ByteArray.Read: the positional read and the positional getReadBuffers start from the cursor's block and are left out, as are files and the text dumps.
- ByteCodec.ZigzagInverse: the signed overflow of the most negative value is modelled as wrap-around; float and double are copies of bits.
- Streams.SocketStream.Read: the kernel is an oracle that moves some of the bytes or fails; lengths fit an `int`. readFixSize and writeFixSize over raw buffers have the same loop and are left out.
- Timers.TimerManager.ListExpired: the clock never runs backwards and now + ms does not overflow; each critical section is one step, and the notification behind it another; condition timers wrap the callback only.
- UrlParams.UrlEncode: isalnum and isxdigit are those of the C locale.
- Scheduling.Accounting: threads, context switches and fibers are an oracle that may change fiber states at any time; start, stop's joining, the caller's own thread and the overrides in IOManager are left out. An entry with neither fiber nor callback is never queued.
- Sockets, epoll, hooks, DNS, configuration, logging and the other wrappers: calls into the system, or small beside the above.
