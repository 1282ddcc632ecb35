# Proxygen in Dafny

A model of the parsers and bookkeeping structures at the core of Proxygen, Meta's C++ HTTP library, with proofs of
what they promise. `dafny verify dfyconfig.toml` verifies everything.

## What is modelled

**The streaming HTTP/1.x parser** (`Http*.dfy`). `HttpSwitch` is the parser's `switch`, state by state and byte by
byte, as a pure function whose outcome names the marks, callbacks and jumps of a visit. `HttpMachine` runs any such
function one byte at a time over a buffer. The class in `HttpParser` is the parser as it is written: a cursor,
positions for marks, skips of 8, 3, 11 and 4 bytes and bulk reads of bodies; its `Execute` is proved equal to the
machine. About the machine it is then proved that cuts between buffers are invisible (`HttpCuts`, `HttpSegments`),
with the exact conditions under which they are not (`HttpMuted`, `HttpErased`, `HttpFailures`), that no run fails
an assert (`HttpInvariant`), that callbacks come in a proper order (`HttpGrammar`), that numbers, methods, names
and codings are read exactly (`HttpLengths`, `HttpTokens`, `HttpCoding`), which bytes are refused (`HttpRefusals`)
and which are taken more freely than they should be (`HttpLines`), and that bodies, whole requests and whole
responses round-trip, in any pieces (`HttpBodies`, `HttpBodyCuts`, `HttpTrailers`; `HttpTarget`, `HttpFields`,
`HttpFolding`, `HttpRequest`, `HttpResponse`; sections 3 and 4.1 of RFC 7230).

**The URL parser and what is built on it** (`Url*.dfy`, `Query*.dfy`). Both passes of http_parser_parse_url_options
are proved to accept exactly the texts of an independent description, and to mark exactly its parts. On top of that
stand `ParseURL` with its two forms, `createUrl` with the exact round-trip conditions, and the query parameters that
an `HTTPMessage` caches beside its URL.

**Structures with state.** `AsyncTimeoutSet` (a doubly linked list, one timer, re-entrant callbacks) over the
meaning in `TimeoutQueue`; `HTTPHeaders` over `HeaderList` and `HeaderStrip`; `PerfectIndexMap` over `IndexMapList`;
`WeakRefCountedPtr`; `RendezvousHash`; `Window`.

## Where promises fail

Some promises do not hold of the code on all inputs. The code is modelled as it is; an example and the exact
condition are proved.

- Cutting the input changes the trace in two ways (`CutExact`). After an error, bytes that a mark held at the cut
  have been delivered, while a call in which nothing ends the mark before the error never delivers them (`ErrorCut`,
  `ErrorShowsCut`). And a CR in a header value that no LF follows drops the mark, so the rest of the value is
  delivered only from the next call on (`MutedCut`, `MutedErrorCut`, `BareCrShowsCut`). Nothing but bytes of header
  values can change without an error (`AnyCuts`).
- The size of headers is checked only at the end of a call, so whether a large header is refused depends on the
  cuts (`OverflowExact`, `HeadSize`, `LongRequestCut`).
- A request target with a scheme may have any two bytes for the slashes (`AcceptsExact`), and twelve other states
  take any byte for the one that should come (`AnyByteDoes`).
- A Content-Length that goes on in a further line starts anew, and only its last line counts (`FoldedLength`).
- The test for a space before the colon of a header cannot succeed, since a space is not a token (`SlowByte`).
- A URL with a scheme, no path, a query and a fragment cannot be read once its query is gone; nor can a URL without
  a scheme whose fragment holds a '?', or that is only a query. Removing the last parameter of such a URL makes the
  cache and the URL disagree from then on (`ReplaceExact`, `RemoveExact`, `RemoveThenSet`).
- removeAllVersions leaves a common version of the name in place unless it is called with that header's code, even
  with the code of the name it is called with; headers with the code of the call go whatever their name; and with
  NONE the deleted count is wrong afterwards if there were tombstones (`VersionsExact`, `VersionsLeft`,
  `RemoveAllVersions`).
- Copy assignment of headers loses the deleted count (`HTTPHeaders.Assign`).
- A weak handle assigned to itself is detached. selectNUnweighted of rank 0 returns one node.

## Conventions

Callbacks return 0 and do not pause. The answer of on_headers_complete, which can make the parser skip a body, is a
function of how many messages came before. A trace joins consecutive data callbacks of one kind, as every client
must. `nread` is kept beside the parser, since the `switch` never looks at it. The hash of header names, the perfect
hash of the index map and the score of a node are parameters, with the properties that are used of them written
out. The clock of a timeout set is a field that only moves forward. Memory that the source frees is marked as freed.

## Model

| member | source | states |
|---|---|---|
| `HttpFailures.CutExact` | proxygen/external/http_parser/http_parser_cpp.cpp:678-2174 | For every cut after which the first call has read all of its bytes: parser, return value and header byte count never depend on it; without an error nothing that is told depends on it but bytes of header values; and whether the traces are equal is decided by the `switch` alone: outside a muted value they are if and only if there is no error, or no mark was live, or some visit before the error ends the mark; inside one, if and only if the next byte ends it, or an error comes before any visit that does. |
| `HttpCuts.CutInvariance` | proxygen/external/http_parser/http_parser_cpp.cpp:678-2174 | The first half of that: outside a muted value and without an error, exactly the same trace. For every disciplined `switch` and every state. |
| `HttpErased.AnyCut` | proxygen/external/http_parser/http_parser_cpp.cpp:678-2174 | With no condition on where the cut falls: the same parser, return value and header byte count, and without an error the same trace with the bytes of header values erased. |
| `HttpErased.AnyCuts` | proxygen/external/http_parser/http_parser_cpp.cpp:678-2174 | The same for any list of non-empty pieces, as long as no piece but the last meets an error or an upgrade. |
| `HttpFailures.ErrorCut` | proxygen/external/http_parser/http_parser_cpp.cpp:2136-2182 | After any error, too long headers included, the callbacks can tell the cut if and only if a mark was live there and no visit to the bytes up to the error ends it; they have then been told exactly the bytes under the mark. |
| `HttpFailures.MutedErrorCut` | proxygen/external/http_parser/http_parser_cpp.cpp:1823-1844 | After an error, a cut inside a muted value shows if and only if the value goes on with the next byte and some visit before the error ends it. |
| `HttpFailures.OverflowExact` | proxygen/external/http_parser/http_parser_cpp.cpp:2144-2161 | A call refuses headers as too long if and only if its bytes run out in a header state with more than MAX_HEADER_SIZE header bytes read. |
| `HttpDiscipline.SwitchIsDisciplined` | proxygen/external/http_parser/http_parser_cpp.cpp:717-2133 | From any state and with any byte, a visit of the source's `switch` never sets a second mark, calls back only when no mark is left, resets the byte count whenever it enters headers, records an error exactly when it stops, and lowers the rank on every jump back. |
| `HttpMuted.MutedCut` | proxygen/external/http_parser/http_parser_cpp.cpp:1823-1844 | A cut inside a value that a bare CR has muted never changes the parser or the return value; without an error the traces agree if and only if the first byte after the cut ends the value. |
| `HttpSegments.ManyCuts` | proxygen/external/http_parser/http_parser_cpp.cpp:678-2174 | The same parser and, without an error, exactly the same trace for any number of pieces cut outside of muted values; `AnyCuts` has no such condition. |
| `HttpSegments.MutedCutByte` | proxygen/external/http_parser/http_parser_cpp.cpp:1701-1844 | For the source's `switch`: a cut inside a muted value is invisible if and only if the next byte is CR or LF outside of an escape. |
| `HttpSegments.CutsAreInvisible` | proxygen/external/http_parser/http_parser_cpp.cpp:678-2174 | Exactly the same trace from a condition on the header lines alone: the CR that ends one is followed by LF, and the prefixes that end at a cut are accepted. Bodies may hold anything. |
| `HttpSegments.FeedAllQuiet` | proxygen/external/http_parser/http_parser_cpp.cpp:1701-1844 | Input in which the CR at the end of each header line has its LF never mutes a value. |
| `HttpSegments.ErrorShowsCut` | proxygen/external/http_parser/http_parser_cpp.cpp:1606-1621 | Counterexample family: in any header name, `A` and a byte no name can have; in one buffer the name callback is never called, cut before the bad byte it is called with `A`. |
| `HttpSegments.BareCrShowsCut` | proxygen/external/http_parser/http_parser_cpp.cpp:1823-1844 | Counterexample family: in any plain header value, CR `x` `y`; in one buffer `y` is lost, cut before it, it is delivered, without any error. |
| `HttpInvariant.VisitKeepsInv` | proxygen/external/http_parser/http_parser_cpp.cpp:717-2133 | Every visit from a state that satisfies the reachable-state invariant keeps it and fails none of the source's asserts. |
| `HttpInvariant.AgainDescends` | proxygen/external/http_parser/http_parser_cpp.cpp:715-717 | Every `goto reexecute_byte` lowers the rank of the state, so no byte is looked at for ever. |
| `HttpInvariant.CallKeepsInv` | proxygen/external/http_parser/http_parser_cpp.cpp:627-2182 | A whole call keeps the invariant and never reaches a failing assert, for any buffer. |
| `HttpInvariant.EveryRunIsSafe` | proxygen/external/http_parser/http_parser_cpp.cpp:2191-2203 | From http_parser_init on arbitrary memory within the fields' widths, no sequence of calls, with any buffers, reaches a failing assert or an unhandled state. |
| `HttpGrammar.OrderedVisit` | proxygen/external/http_parser/http_parser_cpp.cpp:717-2133 | Every visit keeps the callbacks so far and the parser's state in agreement. |
| `HttpGrammar.FeedAllOrdered` | proxygen/external/http_parser/http_parser_cpp.cpp:712-2134 | So does any buffer, and what has been delivered is at every point the beginning of a sequence of well-formed messages. |
| `HttpGrammar.CallInOrder` | proxygen/external/http_parser/http_parser_cpp.cpp:627-2182 | So does a call, whether it ends with the buffer, with an error or with an upgrade. |
| `HttpGrammar.EveryRunIsOrdered` | proxygen/external/http_parser/http_parser_cpp.cpp:718-2127 | From http_parser_init, after any sequence of non-empty buffers, the callbacks have been called in a proper order: begin, url or reason, field and value, one headers-complete, body or balanced chunks with trailers only in the last, one message-complete. |
| `HttpFast.NameRun` | proxygen/external/http_parser/http_parser_cpp.cpp:1523-1555 | Any run of token bytes in an ordinary header name only extends the name. |
| `HttpFast.TextRun` | proxygen/external/http_parser/http_parser_cpp.cpp:1701-1759 | Any run of bytes that are not CR, LF, quote, backslash or controls only extends an ordinary or quoted value. |
| `HttpFast.QuoteByte` | proxygen/external/http_parser/http_parser_cpp.cpp:1724-1728 | The byte before a fast run may open a quote; the run after it is still read as one byte at a time would. |
| `HttpFast.BodyRun` | proxygen/external/http_parser/http_parser_cpp.cpp:1962-1994 | Part of a body of known length only extends the body and lowers the count. |
| `HttpFast.EofRun` | proxygen/external/http_parser/http_parser_cpp.cpp:1997-2001 | A body that lasts to the end of the connection only grows. |
| `HttpFast.ChunkRun` | proxygen/external/http_parser/http_parser_cpp.cpp:2091-2110 | Part or all of a chunk's data, likewise. |
| `HttpParser.SkipName` | proxygen/external/http_parser/http_parser_cpp.cpp:1531-1553 | The 8/3-step skip stops in bounds, over token bytes only, at the step the source stops at. |
| `HttpParser.SkipText` | proxygen/external/http_parser/http_parser_cpp.cpp:1730-1757 | The 11/4-step skip, likewise, over bytes that end nothing. |
| `HttpParser.HttpParser.constructor` | proxygen/external/http_parser/http_parser_cpp.cpp:2191-2203 | A fresh parser satisfies the invariant. |
| `HttpParser.HttpParser.CallBackData` | proxygen/external/http_parser/http_parser_cpp.cpp:92-117 | A data callback delivers the bytes from the mark, with the current byte or without it, and clears that mark alone. |
| `HttpParser.HttpParser.CallBackNotify` | proxygen/external/http_parser/http_parser_cpp.cpp:69-131 | The synthetic space and the notify callback of one visit reach the client in that order. |
| `HttpParser.HttpParser.Visit` | proxygen/external/http_parser/http_parser_cpp.cpp:717-2133 | One visit, with positions into the buffer for marks, performs the visit of the machine. |
| `HttpParser.HttpParser.FastName` | proxygen/external/http_parser/http_parser_cpp.cpp:1527-1555 | The name skip gives the configuration that one byte at a time gives. |
| `HttpParser.HttpParser.FastText` | proxygen/external/http_parser/http_parser_cpp.cpp:1724-1759 | The value skip, including the run right after an opening quote, likewise. |
| `HttpParser.HttpParser.BulkBody` | proxygen/external/http_parser/http_parser_cpp.cpp:1962-2110 | Reading a stretch of body at once is reading it byte by byte. |
| `HttpParser.HttpParser.SlowByte` | proxygen/external/http_parser/http_parser_cpp.cpp:1606-1622 | A byte outside the fast paths; the trailing-space test before ':' is shown to be dead. |
| `HttpParser.HttpParser.Iterate` | proxygen/external/http_parser/http_parser_cpp.cpp:712-2134 | One turn of the loop moves the cursor forward, or stays and lowers the rank, and never beyond the buffer. |
| `HttpParser.HttpParser.Leftover` | proxygen/external/http_parser/http_parser_cpp.cpp:2168-2172 | A leftover mark delivers the bytes from the mark to the end of the buffer. |
| `HttpParser.HttpParser.Leftovers` | proxygen/external/http_parser/http_parser_cpp.cpp:2168-2172 | All five leftover callbacks together deliver exactly what is still held, since at most one mark is set. |
| `HttpParser.HttpParser.Finish` | proxygen/external/http_parser/http_parser_cpp.cpp:2144-2174 | The end of a buffer: header overflow, or the leftover callbacks. |
| `HttpParser.HttpParser.AtEnd` | proxygen/external/http_parser/http_parser_cpp.cpp:655-674 | A call without data, in every state. |
| `HttpParser.HttpParser.Execute` | proxygen/external/http_parser/http_parser_cpp.cpp:627-2182 | Fast path refines slow path: a call with fast paths, positions and bulk reads leaves the same parser, byte count, callbacks and return value as the byte-at-a-time machine. |
| `HttpLengths.ChunkSizeExact` | proxygen/external/http_parser/http_parser_cpp.cpp:2014-2058 | A hexadecimal chunk size is read as its value, and refused as huge if and only if the value exceeds INT64_MAX. |
| `HttpLengths.ContentLengthExact` | proxygen/external/http_parser/http_parser_cpp.cpp:1685-1796 | A Content-Length is read as its decimal value, spaces ignored, and refused as huge if and only if it is at least 9223372036854775800. |
| `HttpTokens.MethodSound` | proxygen/external/http_parser/http_parser_cpp.cpp:947-1037 | Whatever method token is not refused is a prefix of the name the matcher has guessed. |
| `HttpTokens.MethodComplete` | proxygen/external/http_parser/http_parser_cpp.cpp:947-1037 | Every prefix of every method name is accepted, with the guess the source makes. |
| `HttpTokens.MethodExact` | proxygen/external/http_parser/http_parser_cpp.cpp:947-1037 | A token is accepted if and only if it is a method name, and then as that method. |
| `HttpTokens.MethodOrResponse` | proxygen/external/http_parser/http_parser_cpp.cpp:755-793 | Also where a response might come instead: HEAD is told from a response by its second letter. |
| `HttpTokens.NameExact` | proxygen/external/http_parser/http_parser_cpp.cpp:1477-1604 | A header name is recognized as Content-Length, Transfer-Encoding or Upgrade if and only if it is that word, in any case. |
| `HttpCoding.CodingExact` | proxygen/external/http_parser/http_parser_cpp.cpp:1676-1821 | The matcher of a Transfer-Encoding value ends in its chunked state if and only if the value is "chunked" in any case, with nothing but spaces after it. |
| `HttpCoding.CodingLine` | proxygen/external/http_parser/http_parser_cpp.cpp:1701-1844 | Such a header line delivers its value, and turns the chunked coding on if and only if it says so; a value that ends inside a quoted escape takes the CR with it. |
| `HttpBodies.IdentityBody` | proxygen/external/http_parser/http_parser_cpp.cpp:1962-2012 | A body of length n delivers exactly the next n bytes, in order, then completes the message; after an upgrade the call ends there. |
| `HttpBodies.ReadChunk` | proxygen/external/http_parser/http_parser_cpp.cpp:2014-2127 | One chunk: its size, exactly its bytes, its end. |
| `HttpBodies.ChunkedRoundTrip` | proxygen/external/http_parser/http_parser_cpp.cpp:1861-2127 | Parsing the canonical coding of any non-empty chunks reports each with its length and bytes, then the last chunk and the end of the message, and returns to the start state. |
| `HttpBodyCuts.BodyInPieces` | proxygen/external/http_parser/http_parser_cpp.cpp:1962-2012 | A body of length n in any non-empty pieces. |
| `HttpBodyCuts.ChunksInPieces` | proxygen/external/http_parser/http_parser_cpp.cpp:1861-2127 | The chunked round trip with the coding cut anywhere, into any non-empty pieces. |
| `HttpTarget.TargetExact` | proxygen/external/http_parser/http_parser_cpp.cpp:1039-1344 | A request target is taken if and only if the walk through the URL states accepts it, and is then delivered byte for byte. |
| `HttpTarget.AcceptsExact` | proxygen/external/http_parser/http_parser_cpp.cpp:1039-1344 | Which targets those are: after CONNECT a host with an optional port, path, query and fragment; otherwise such a path after '/' or '*', or letters, a colon, two bytes that are not looked at, and such a host. |
| `HttpTarget.VersionExact` | proxygen/external/http_parser/http_parser_cpp.cpp:1380-1464 | A version number is read as its decimal value, and refused if and only if that exceeds 999. |
| `HttpTarget.ReadRequestLine` | proxygen/external/http_parser/http_parser_cpp.cpp:910-1475 | A request line is read as its method, its target and its version. |
| `HttpFields.HeaderLine` | proxygen/external/http_parser/http_parser_cpp.cpp:1477-1859 | One header line, whatever its name: delivers exactly its name and value, and changes the framing as its name says. |
| `HttpFolding.FoldedHeader` | proxygen/external/http_parser/http_parser_cpp.cpp:1624-1859 | A value that goes on in further lines is told as one: the texts of its lines with a single space between them; and it says nothing about the framing. |
| `HttpFolding.FoldedLength` | proxygen/external/http_parser/http_parser_cpp.cpp:1685-1859 | A Content-Length that goes on in a further line starts anew, so that only the last line counts. |
| `HttpFields.HeaderBlock` | proxygen/external/http_parser/http_parser_cpp.cpp:1477-1859 | A block of header lines delivers every header in order; the last Content-Length, any chunked Transfer-Encoding and any Upgrade are what remains of them. |
| `HttpRequest.HeadersEnd` | proxygen/external/http_parser/http_parser_cpp.cpp:1861-1960 | The empty line of any message reports its framing, and leads to what the headers, the status code and the answer of on_headers_complete say: nothing, another protocol, a body of known length, chunks, or a body until the connection ends. |
| `HttpRequest.ReadHead` | proxygen/external/http_parser/http_parser_cpp.cpp:910-1960 | The head of a request, whatever it announces and whatever on_headers_complete answers: exactly its target, its headers, its framing and, if nothing follows, its end are told. |
| `HttpRequest.UpgradedRequest` | proxygen/external/http_parser/http_parser_cpp.cpp:1913-1931 | A request for another protocol ends the call with its head: whatever stands behind it is not read, and the message has been told complete. |
| `HttpRequest.RequestRoundTrip` | proxygen/external/http_parser/http_parser_cpp.cpp:627-2182 | A printed request with no body, a body of known length or chunks is told exactly: begin, target, headers, framing, content, end; and the parser is ready for the next. |
| `HttpRequest.Pipeline` | proxygen/external/http_parser/http_parser_cpp.cpp:627-2182 | The same for any number of requests in one buffer. |
| `HttpRequest.RequestsInPieces` | proxygen/external/http_parser/http_parser_cpp.cpp:627-2182 | The same for any number of requests in any non-empty pieces, if every head fits into MAX_HEADER_SIZE. |
| `HttpRequest.HeadSize` | proxygen/external/http_parser/http_parser_cpp.cpp:2144-2161 | A prefix of a head is refused if and only if it is longer than MAX_HEADER_SIZE, while in one buffer the request is accepted however long its head is. |
| `HttpRequest.LongRequestCut` | proxygen/external/http_parser/http_parser_cpp.cpp:2144-2161 | Counterexample family: a request with a header of MAX_HEADER_SIZE bytes or more is accepted in one buffer and refused after its first MAX_HEADER_SIZE + 1 bytes. |
| `HttpResponse.StatusExact` | proxygen/external/http_parser/http_parser_cpp.cpp:872-916 | A status code, after any spaces and up to a space, CR or LF, is read as its decimal value, and refused if and only if that exceeds 999. |
| `HttpResponse.NumberExact` | proxygen/external/http_parser/http_parser_cpp.cpp:803-916 | The same for the version numbers of a response. |
| `HttpResponse.ReadStatusLine` | proxygen/external/http_parser/http_parser_cpp.cpp:758-937 | A status line is read as its version, its status code and exactly its reason, if there is one. |
| `HttpResponse.ReadResponseHead` | proxygen/external/http_parser/http_parser_cpp.cpp:758-1960 | The head of a response, whatever it announces and whatever on_headers_complete answers: exactly its reason, its headers and its framing are told. |
| `HttpResponse.ResponseRoundTrip` | proxygen/external/http_parser/http_parser_cpp.cpp:627-2182 | A printed response is told exactly: begin, reason, headers, framing, body; and leaves its version and status code. The body is the one that headers, status code and answer announce: none, of known length, chunks, or until the connection ends. |
| `HttpResponse.Responses` | proxygen/external/http_parser/http_parser_cpp.cpp:627-2182 | The same for any number of responses in one buffer, of which only the last may be open. |
| `HttpResponse.ResponsesInPieces` | proxygen/external/http_parser/http_parser_cpp.cpp:627-2182 | The same for any non-empty pieces, followed by the end of the connection: an open body is told whole, and complete only then. |
| `HttpTrailers.Extension` | proxygen/external/http_parser/http_parser_cpp.cpp:2029-2073 | A chunk extension is skipped up to the end of its line, and leaves the size as it is. |
| `HttpTrailers.Trailers` | proxygen/external/http_parser/http_parser_cpp.cpp:1861-1880 | Header lines behind the last chunk are told like others, before the message is complete. |
| `HttpTrailers.ChunkedBody` | proxygen/external/http_parser/http_parser_cpp.cpp:1861-2127 | Any chunked body, with any digits for the sizes, any extensions and any trailers, is told exactly. |
| `HttpTypes.TokenBytes` | proxygen/external/http_parser/http_parser_cpp.cpp:184-217 | A byte of a header name is a visible one that is not a delimiter. |
| `HttpTypes.LowerLetters` | proxygen/external/http_parser/http_parser_cpp.cpp:408-409 | Both ways of folding case take exactly the two forms of a letter to its small one. |
| `HttpTypes.HexBytes` | proxygen/external/http_parser/http_parser_cpp.cpp:219-236 | Of the lower half of the bytes, exactly the hexadecimal digits have a value. |
| `HttpLines.BlankLines` | proxygen/external/http_parser/http_parser_cpp.cpp:718-945 | Line ends before a message are skipped. |
| `HttpLines.LfAlone` | proxygen/external/http_parser/http_parser_cpp.cpp:887-937 | A line feed alone ends a request line, a status line and a header line just as CR LF does. |
| `HttpLines.LfEndsHeaders` | proxygen/external/http_parser/http_parser_cpp.cpp:1477-1490 | So does it end the headers. |
| `HttpLines.EmptyValueLf` | proxygen/external/http_parser/http_parser_cpp.cpp:1660-1666 | But after a header without a value that ends so, no further line can go on with the value. |
| `HttpLines.SpacesSkipped` | proxygen/external/http_parser/http_parser_cpp.cpp:1039-1378 | Further spaces before the target and before the version are skipped. |
| `HttpLines.SimpleRequest` | proxygen/external/http_parser/http_parser_cpp.cpp:1170-1344 | A request of HTTP/0.9 is told with no headers, and is complete. |
| `HttpLines.SimpleVersion` | proxygen/external/http_parser/http_parser_cpp.cpp:1426-1464 | The same if the version is spelled out. |
| `HttpLines.AsResponse` | proxygen/external/http_parser/http_parser_cpp.cpp:725-782 | Where either may come, HT begins a response. |
| `HttpLines.AnyByteDoes` | proxygen/external/http_parser/http_parser_cpp.cpp:447-447 | Strict checks are compiled out: in fourteen states every byte does what the expected one does. |
| `HttpRefusals.RefusedExactly` | proxygen/external/http_parser/http_parser_cpp.cpp:717-2133 | In every reachable state but those of methods: which bytes are refused, and with which error. |
| `HttpRefusals.ErrorIsFinal` | proxygen/external/http_parser/http_parser_cpp.cpp:651-654 | After an error nothing is read and nothing told, whatever calls follow. |
| `HttpRefusals.EndExact` | proxygen/external/http_parser/http_parser_cpp.cpp:656-673 | The end of the input is an error if and only if it comes in the middle of a message; it tells nothing, except that a body without a length is complete. |
| `UrlOuter.UserinfoBytes` | proxygen/external/http_parser/http_parser_cpp.cpp:414-419 | All visible bytes but fifteen may stand in userinfo. |
| `UrlOuter.Shape` | proxygen/external/http_parser/http_parser_cpp.cpp:471-617 | Every prefix that the URL machine has not rejected is the text of a legal description, and the marked fields are its pieces. |
| `UrlOuter.WalkRender` | proxygen/external/http_parser/http_parser_cpp.cpp:2373-2433 | The URL machine reads the text of every legal description to its end and marks exactly its pieces. |
| `UrlHost.HostShape` | proxygen/external/http_parser/http_parser_cpp.cpp:2218-2354 | Every server text that the host machine has not rejected is userinfo, a host or a bracketed address, and a port, in legal order; the fields mark them. |
| `UrlHost.WalkHostText` | proxygen/external/http_parser/http_parser_cpp.cpp:2218-2354 | And every such text is read to its end. |
| `UrlParser.PassesDescribed` | proxygen/external/http_parser/http_parser_cpp.cpp:2364-2441 | Both passes succeed on the text of every described URL and give its fields. |
| `UrlParser.PassesShape` | proxygen/external/http_parser/http_parser_cpp.cpp:2364-2441 | If both passes succeed the text is that of a described URL. |
| `UrlParser.UrlFields.constructor` | proxygen/lib/utils/ParseURL.cpp:62-63 | A zeroed struct has no field set. |
| `UrlParser.UrlFields.MarkFields` | proxygen/external/http_parser/http_parser_cpp.cpp:2373-2433 | The first loop computes the walk of the URL machine. |
| `UrlParser.UrlFields.ParseHost` | proxygen/external/http_parser/http_parser_cpp.cpp:2283-2354 | The second loop computes the walk of the host machine, and fails exactly in its rejecting states. |
| `UrlParser.UrlFields.TwoPasses` | proxygen/external/http_parser/http_parser_cpp.cpp:2373-2441 | Both passes, with the second only if a scheme or a host was marked. |
| `UrlParser.UrlFields.ReadPort` | proxygen/external/http_parser/http_parser_cpp.cpp:2448-2473 | The port is the decimal value of its digits, and the URL is refused if and only if that exceeds 65535. |
| `UrlParser.UrlFields.ParseUrl` | proxygen/external/http_parser/http_parser_cpp.cpp:2364-2476 | A URL is accepted if and only if it is the text of some parts, for CONNECT of a host and a port alone; and then the fields mark those parts and the port is the number its digits denote. |
| `UrlTiling.FieldsTile` | proxygen/external/http_parser/http_parser_cpp.cpp:2364-2476 | The fields of an accepted URL are non-empty, in bounds, hold the parts' text, are ordered scheme, userinfo, host, port, path, query, fragment without overlap, and every byte outside of them is a delimiter; a scheme implies a host. |
| `UrlText.CanonicalDigits` | proxygen/lib/utils/ParseURL.cpp:99-100 | Digits are what their value prints as if and only if they have no leading zero. |
| `UrlText.ViewIs` | proxygen/lib/utils/ParseURL.cpp:71-100 | What is shown of an accepted URL with a scheme is its parts: the host with its brackets, the authority without userinfo and without a zero port. |
| `UrlText.FullRoundTrip` | proxygen/lib/http/HTTPMessage.cpp:609-629 | createUrl of a parsed URL with a scheme is the URL if and only if it has no userinfo, no port with a leading zero, and nothing empty after '?' or '#' (and one '#'). |
| `UrlReading.FullExact` | proxygen/lib/utils/ParseURL.cpp:44-101 | A text that starts with letters and "://" is read if and only if it is accepted, and as its parts. |
| `UrlReading.PartialIs` | proxygen/lib/utils/ParseURL.cpp:107-182 | Every legal text without a scheme is read as its authority, path, query and fragment. |
| `UrlReading.PartialShape` | proxygen/lib/utils/ParseURL.cpp:107-182 | Whatever is read without a scheme is such a text. |
| `UrlReading.NotFull` | proxygen/lib/utils/ParseURL.cpp:44-53 | No text is read in both ways. |
| `UrlReading.PartialRoundTrip` | proxygen/lib/http/HTTPMessage.cpp:609-629 | createUrl of a URL without a scheme is the URL if and only if nothing is empty after '?' or '#'. |
| `UrlReading.SlashIsPartial` | proxygen/lib/utils/ParseURL.cpp:56-60 | The short cut for "/" gives what the partial form gives. |
| `UrlReading.ParseURL.constructor` | proxygen/lib/utils/ParseURL.h:51-53 | A new object shows nothing and is not valid. |
| `UrlReading.AuthorityExact` | proxygen/lib/utils/ParseURL.cpp:157-182 | An authority is read if and only if it is a name without colons and brackets, or text with an address in brackets, and ends in nothing or in a colon and a port of at most 65535; and then as that name or bracketed address and that port. |
| `UrlReading.ParseURL.ParseAuthority` | proxygen/lib/utils/ParseURL.cpp:157-182 | The method finds that host and port, or fails. |
| `UrlReading.SameBytes` | proxygen/lib/utils/ParseURL.cpp:112-118 | URLs with and without a scheme take the same bytes. |
| `UrlReading.ParseURL.ParseNonFully` | proxygen/lib/utils/ParseURL.cpp:107-155 | The searches for '/', '?' and '#'. |
| `UrlReading.ParseURL.Take` | proxygen/lib/utils/ParseURL.cpp:71-100 | Copies the fields of the struct, with the brackets of an address. |
| `UrlReading.ParseURL.Parse` | proxygen/lib/utils/ParseURL.cpp:55-105 | The whole: valid, and shows what the URL says, exactly when it can be read. |
| `QueryParams.QueryRoundTrip` | proxygen/lib/http/HTTPMessage.cpp:595-607 | A fresh parse of the printed form of any good parameter map is that map. |
| `QueryParams.ParamsGood` | proxygen/lib/http/HTTPMessage.cpp:457-479 | The map parsed from any clean query is good, so it survives being printed and parsed again. |
| `QueryParams.LookupInsert` | proxygen/lib/http/HTTPMessage.cpp:590-590 | Setting a name gives it the value, and changes no other name. |
| `QueryParams.LookupErase` | proxygen/lib/http/HTTPMessage.cpp:573-576 | Erasing a name takes it away, and changes no other name. |
| `QueryParams.LookupIs` | proxygen/lib/http/HTTPMessage.cpp:486-497 | A name has a value if and only if the map holds that pair. |
| `QueryParams.SameValues` | proxygen/lib/http/HTTPMessage.cpp:486-497 | A map is determined by what its names have for values. |
| `QueryParams.PairsExact` | proxygen/lib/http/HTTPMessage.cpp:675-716 | A query is split at '&' and nowhere else, and empty texts are left out. |
| `HttpTypes.Unglue` | proxygen/lib/http/HTTPMessage.cpp:675-698 | Every text is some texts with separators between them, so the law before this covers every query. |
| `QueryParams.PairSplit` | proxygen/lib/http/HTTPMessage.cpp:699-715 | The text before the first '=' is the name, that after it the value; without '=' all is the name. |
| `QueryParams.TrimExact` | proxygen/lib/http/HTTPMessage.cpp:704-712 | Trimming takes away exactly the white space at both ends. |
| `QueryParams.LastWins` | proxygen/lib/http/HTTPMessage.cpp:466-478 | Of several values of a name the last one counts. |
| `QueryReplace.ReplaceExact` | proxygen/lib/http/HTTPMessage.cpp:545-565 | Printing a readable URL with another clean query and reading it again gives the same URL with that query if and only if the query is not empty or the URL stays readable without one; otherwise it cannot be read at all. |
| `QueryCache.ApplyCoherent` | proxygen/lib/http/HTTPMessage.cpp:541-593 | Every call keeps the cached parameters equal to a fresh parse of the URL's query, and changes nothing of the URL but the query; setting a parameter does so on any readable URL. |
| `QueryCache.EveryRunIsCoherent` | proxygen/lib/http/HTTPMessage.cpp:457-607 | Over every sequence of set, remove, get and set-query with legal names and values, on a URL that stays readable without its query. |
| `QueryCache.SetThenGet` | proxygen/lib/http/HTTPMessage.cpp:582-593 | After a parameter is set it has the value, and every other has the value it had. |
| `QueryCache.RemoveThenGet` | proxygen/lib/http/HTTPMessage.cpp:567-580 | After a parameter is removed it has no value, and every other has the value it had. |
| `QueryCache.FreshValue` | proxygen/lib/http/HTTPMessage.cpp:457-497 | A message that was not asked yet has the values of its query. |
| `QueryCache.UrlFollows` | proxygen/lib/http/HTTPMessage.cpp:567-593 | Whoever reads the new URL finds the same: the parameter that was set or removed, and all others as before. |
| `QueryCache.RemoveExact` | proxygen/lib/http/HTTPMessage.cpp:567-580 | Removing a parameter keeps the message coherent if and only if another is left or the URL stays readable without a query. |
| `QueryCache.RemoveThenSet` | proxygen/lib/http/HTTPMessage.cpp:567-593 | Counterexample family: otherwise, removing the only parameter and setting another leaves a cache that the query does not have. |
| `QueryCache.FragileUrl` | proxygen/lib/http/HTTPMessage.cpp:545-565 | Such a URL: "http://h?a=b#f", whose path is empty and whose fragment is not. |
| `QueryCache.JoinParams` | proxygen/lib/http/HTTPMessage.cpp:595-607 | The loop prints the map. |
| `QueryCache.HTTPMessage.constructor` | proxygen/lib/http/HTTPMessage.cpp:971-989 | A new message has nothing cached. |
| `QueryCache.HTTPMessage.SetURLImpl` | proxygen/lib/http/HTTPMessage.cpp:971-989 | Sets URL, path and query, clearing path and query if the URL cannot be read. |
| `QueryCache.HTTPMessage.ParseQueryParams` | proxygen/lib/http/HTTPMessage.cpp:457-479 | The splitting loop enters every pair, the last value of a name winning. |
| `QueryCache.HTTPMessage.SetQueryStringImpl` | proxygen/lib/http/HTTPMessage.cpp:545-565 | Replaces the query of a readable URL; fails and changes nothing otherwise. |
| `QueryCache.HTTPMessage.GetQueryParam` | proxygen/lib/http/HTTPMessage.cpp:486-506 | Parses on first use and finds the value, which no call changes by looking. |
| `QueryCache.HTTPMessage.SetQueryParam` | proxygen/lib/http/HTTPMessage.cpp:582-593 | Cache first, then the URL; every name has the value it should have. |
| `QueryCache.HTTPMessage.RemoveQueryParam` | proxygen/lib/http/HTTPMessage.cpp:567-580 | Likewise: the name has no value, and every other keeps its own; a missing name changes nothing but the cache flag. |
| `TimeoutQueue.ActKeeps` | proxygen/lib/utils/AsyncTimeoutSet.cpp:51-172 | Scheduling, cancelling and waiting keep the queue sorted and without repetition, and the timer armed exactly when someone waits and not before the first is due. |
| `TimeoutQueue.ActExact` | proxygen/lib/utils/AsyncTimeoutSet.cpp:51-155 | Who waits after an action: whoever is not concerned keeps the entry, a cancelled callback has none, and a scheduled one has the last and is due exactly an interval from now. |
| `TimeoutQueue.ActAllDue` | proxygen/lib/utils/AsyncTimeoutSet.cpp:127-155 | Whatever callbacks do during a pass, they only take away from the entries that were due at its start. |
| `TimeoutQueue.PassFires` | proxygen/lib/utils/AsyncTimeoutSet.cpp:207-223 | The loop of a pass fires exactly the entries due at its start, first in first out, apart from those an earlier callback took away, and ends with the timer armed for whoever is left. |
| `TimeoutQueue.ExpiryPass` | proxygen/lib/utils/AsyncTimeoutSet.cpp:174-224 | So a pass ends, fires none early and none twice, leaves nothing that was due when it started, and sets the timer for the first expiration, late by as much as the pass took, but at least atMostEveryN from now. |
| `TimeoutQueue.FiresExactly` | proxygen/lib/utils/AsyncTimeoutSet.cpp:207-223 | A due entry fires if and only if no entry that fires before it cancels it or schedules it again. |
| `TimeoutQueue.FiresInOrder` | proxygen/lib/utils/AsyncTimeoutSet.cpp:207-223 | Entries fire in the order in which they were due. |
| `TimeoutQueue.RunEvents` | proxygen/lib/utils/AsyncTimeoutSet.cpp:127-224 | All of this at every point of every run of actions and passes. |
| `TimeoutQueue.NoneOverdue` | proxygen/lib/utils/AsyncTimeoutSet.cpp:127-224 | Over every run in which the event loop runs the timer when it is due and no pass takes longer than lag: the timer stands within lag + atMostEveryN after the first expiration, and no callback ever waits longer than that. |
| `TimeoutQueue.ZeroIntervalStalls` | proxygen/lib/utils/AsyncTimeoutSet.cpp:207-223 | Why the interval must be positive: with zero, a callback that schedules itself is due again at once. |
| `AsyncTimeoutSet.AsyncTimeoutSet.constructor` | proxygen/lib/utils/AsyncTimeoutSet.cpp:75-85 | An empty set with no timer. |
| `AsyncTimeoutSet.AsyncTimeoutSet.HeadChanged` | proxygen/lib/utils/AsyncTimeoutSet.cpp:157-172 | Arms the timer for the new head, unless a pass is running. |
| `AsyncTimeoutSet.AsyncTimeoutSet.Unlink` | proxygen/lib/utils/AsyncTimeoutSet.cpp:51-73 | Takes a callback out of the doubly linked list wherever it is; the list stays linked both ways. |
| `AsyncTimeoutSet.AsyncTimeoutSet.CancelTimeout` | proxygen/lib/utils/AsyncTimeoutSet.h:71-77 | Cancels a scheduled callback and ignores another. |
| `AsyncTimeoutSet.AsyncTimeoutSet.Append` | proxygen/lib/utils/AsyncTimeoutSet.cpp:133-155 | Links a callback behind the tail with its expiration. |
| `AsyncTimeoutSet.AsyncTimeoutSet.ScheduleTimeout` | proxygen/lib/utils/AsyncTimeoutSet.cpp:127-155 | Schedules, or schedules again, at the end. |
| `AsyncTimeoutSet.AsyncTimeoutSet.Do` | proxygen/lib/utils/AsyncTimeoutSet.cpp:127-155 | One action of whoever uses the set. |
| `AsyncTimeoutSet.AsyncTimeoutSet.RunActions` | proxygen/lib/utils/AsyncTimeoutSet.cpp:217-222 | What a callback does when it fires. |
| `AsyncTimeoutSet.AsyncTimeoutSet.FireDue` | proxygen/lib/utils/AsyncTimeoutSet.cpp:207-223 | The re-entrant loop over the linked list fires what the queue's loop fires, and terminates. |
| `AsyncTimeoutSet.AsyncTimeoutSet.TimeoutExpired` | proxygen/lib/utils/AsyncTimeoutSet.cpp:174-224 | The whole pass, on the linked list, is the pass of the queue. |
| `HeaderList.EraseLive` | proxygen/lib/http/HTTPHeaders.cpp:108-147 | Turning matching slots into tombstones removes exactly the matching headers and counts them. |
| `HeaderStrip.MoveNamedIsPartition` | proxygen/lib/http/HTTPHeaders.cpp:231-253 | Moving the headers that tokens name is a partition. |
| `HeaderStrip.StripIsPartition` | proxygen/lib/http/HTTPHeaders.cpp:255-316 | What is left after stripping are, in their order, exactly the headers that are neither per-hop nor named by a Connection header; with what was newly stripped they are, as a multiset, the headers there were. |
| `HeaderStrip.TokensExact` | proxygen/lib/http/HTTPHeaders.cpp:255-301 | The tokens of a Connection value: the texts between its commas without the white space around them, empty ones left out, and of the last one the first word. |
| `HeaderStrip.TokensRoundTrip` | proxygen/lib/http/HTTPHeaders.cpp:255-301 | Words joined by commas, with any white space around them, are the tokens of the value, up to the first NUL. |
| `HeaderStrip.BareExact` | proxygen/lib/http/HTTPHeaders.cpp:263-300 | White space around a text is taken away, and no more than that. |
| `HeaderStrip.AllTokensIs` | proxygen/lib/http/HTTPHeaders.cpp:257-303 | The tokens of a collection are those of its Connection headers. |
| `HeaderList.FoldLetters` | proxygen/lib/http/HTTPHeaders.cpp:134-147 | Names are compared without regard to the case of the 26 letters. |
| `HeaderList.SameVersionIs` | proxygen/lib/http/HTTPHeaders.cpp:134-147 | Two names are versions of one another if and only if they differ in case and in '-' against '_' alone. |
| `HTTPHeaders.HTTPHeaders.constructor` | proxygen/lib/http/HTTPHeaders.cpp:39-41 | An empty collection with room for sixteen. |
| `HTTPHeaders.HTTPHeaders.SizeIsLive` | proxygen/lib/http/HTTPHeaders.cpp:227-229 | Length less deleted count is the number of headers. |
| `HTTPHeaders.HTTPHeaders.Resize` | proxygen/lib/http/HTTPHeaders.h:365-383 | Growing moves every slot and changes none. |
| `HTTPHeaders.HTTPHeaders.Ensure` | proxygen/lib/http/HTTPHeaders.h:349-363 | Growing by half ends with enough room. |
| `HTTPHeaders.HTTPHeaders.EmplaceBack` | proxygen/lib/http/HTTPHeaders.h:407-418 | Adds a header at the end with its value trimmed on the right. |
| `HTTPHeaders.HTTPHeaders.Add` | proxygen/lib/http/HTTPHeaders.cpp:43-51 | Adding by name, whichever code it has. |
| `HTTPHeaders.AnyTable` | proxygen/lib/http/HTTPHeaders.cpp:76-88 | Every table of up to 254 names that differ in more than case has a hash with codes of one byte that meets what the collection asks of it. |
| `HTTPHeaders.HTTPHeaders.Kill` | proxygen/lib/http/HTTPHeaders.cpp:114-119 | One position becomes a tombstone and is counted, also if it was one already. |
| `HTTPHeaders.HTTPHeaders.RemoveCode` | proxygen/lib/http/HTTPHeaders.cpp:124-132 | Removes exactly the headers whose names have the code, keeps the others in order, and says whether the count changed; with NONE it removes nothing and counts the tombstones a second time. |
| `HTTPHeaders.HTTPHeaders.Remove` | proxygen/lib/http/HTTPHeaders.cpp:108-122 | The same by name: lookup by name and by code agree. |
| `HTTPHeaders.HTTPHeaders.RemoveAllVersions` | proxygen/lib/http/HTTPHeaders.cpp:134-147 | Removes exactly the headers with the code, and the uncommon ones whose names differ at most in case and '_' for '-'; the deleted count stays right if and only if the code is not NONE or there were no tombstones. |
| `HTTPHeaders.VersionsExact` | proxygen/lib/http/HTTPHeaders.h:263-267 | No version of the name is left if and only if every common one among them has the code of the call; nothing else goes if and only if all headers with that code are versions of the name. |
| `HTTPHeaders.VersionsLeft` | proxygen/lib/http/HTTPHeaders.cpp:134-147 | An input: with its own code, `content_type` leaves the common `content-type`; with the code of `host`, `host` goes too. |
| `HTTPHeaders.HTTPHeaders.RemoveByPredicate` | proxygen/lib/http/HTTPHeaders.h:537-558 | Leaves exactly the headers that are not picked, in order, and says whether any was. |
| `HTTPHeaders.HTTPHeaders.Set` | proxygen/lib/http/HTTPHeaders.h:134-138 | Leaves one header of the name, at the end. |
| `HTTPHeaders.HTTPHeaders.Exists` | proxygen/lib/http/HTTPHeaders.cpp:76-84 | By name, exactly when there is a live one. |
| `HTTPHeaders.HTTPHeaders.ExistsCode` | proxygen/lib/http/HTTPHeaders.cpp:86-88 | By code, exactly when there is a live one; NONE finds tombstones. |
| `HTTPHeaders.HTTPHeaders.Assign` | proxygen/lib/http/HTTPHeaders.cpp:184-205 | Copy assignment copies the tombstones and forgets their count, so the size is right if and only if there were none. |
| `HTTPHeaders.HTTPHeaders.GetSingle` | proxygen/lib/http/HTTPHeaders.h:561-579 | A value exactly when there is exactly one. |
| `HTTPHeaders.HTTPHeaders.CopyTo` | proxygen/lib/http/HTTPHeaders.cpp:318-329 | Appends the live headers in order. |
| `HTTPHeaders.HTTPHeaders.MoveOne` | proxygen/lib/http/HTTPHeaders.cpp:237-241 | One header goes from one collection to the end of another. |
| `HTTPHeaders.HTTPHeaders.TransferHeaderIfPresent` | proxygen/lib/http/HTTPHeaders.cpp:231-253 | Moves all headers of a name, in order. |
| `HTTPHeaders.FirstWord` | proxygen/lib/http/HTTPHeaders.cpp:272-275 | The last token ends at white space. |
| `HTTPHeaders.HTTPHeaders.StripNamed` | proxygen/lib/http/HTTPHeaders.cpp:257-303 | The scanning loop over one Connection value moves the headers its tokens name. |
| `HTTPHeaders.HTTPHeaders.StripConnection` | proxygen/lib/http/HTTPHeaders.cpp:257-303 | All Connection headers, none of which is moved meanwhile. |
| `HTTPHeaders.HTTPHeaders.StripCodes` | proxygen/lib/http/HTTPHeaders.cpp:305-315 | The loop over per-hop codes. |
| `HTTPHeaders.HTTPHeaders.StripPerHopHeaders` | proxygen/lib/http/HTTPHeaders.cpp:255-316 | The whole, on the arrays, is the partition above, for the nine names of per-hop headers. |
| `HTTPHeaders.CodeOrName` | proxygen/lib/http/HTTPHeaders.cpp:22-37 | To have the code of a per-hop header is to have its name. |
| `IndexMapList.SetLeavesOne` | proxygen/lib/utils/PerfectIndexMap.h:113-124 | Setting leaves exactly one entry of the key, with the value, and all other entries as they were. |
| `IndexMapList.SetExact` | proxygen/lib/utils/PerfectIndexMap.h:113-124 | The value is set where the first entry of the key was, and at the end if there was none. |
| `IndexMapList.MatchesSplit` | proxygen/lib/utils/PerfectIndexMap.h:113-124 | The entries of a key and the other ones are the entries there are. |
| `PerfectIndexMap.PerfectIndexMap.constructor` | proxygen/lib/utils/PerfectIndexMap.h:51-52 | An empty map. |
| `PerfectIndexMap.PerfectIndexMap.SizeIsLive` | proxygen/lib/utils/PerfectIndexMap.h:148-150 | The size is the number of live entries. |
| `PerfectIndexMap.PerfectIndexMap.RemoveAtIndex` | proxygen/lib/utils/PerfectIndexMap.h:336-345 | One entry dies; both counters stay exact. |
| `PerfectIndexMap.PerfectIndexMap.AddKeyToIndex` | proxygen/lib/utils/PerfectIndexMap.h:311-314 | A key with a code. |
| `PerfectIndexMap.PerfectIndexMap.AddOtherKeyToIndex` | proxygen/lib/utils/PerfectIndexMap.h:315-321 | A key without one, with its single name entry. |
| `PerfectIndexMap.PerfectIndexMap.ReplaceOtherKeyAtIndex` | proxygen/lib/utils/PerfectIndexMap.h:328-333 | New name and value for an equal key. |
| `PerfectIndexMap.PerfectIndexMap.RemoveKey` | proxygen/lib/utils/PerfectIndexMap.h:242-258 | Removes every entry of a key, or the one there can be. |
| `PerfectIndexMap.PerfectIndexMap.RemoveOtherKey` | proxygen/lib/utils/PerfectIndexMap.h:259-271 | The same by the name vectors. |
| `PerfectIndexMap.PerfectIndexMap.SetKey` | proxygen/lib/utils/PerfectIndexMap.h:217-240 | First entry set, later ones removed, added if there was none. |
| `PerfectIndexMap.PerfectIndexMap.SetOtherKey` | proxygen/lib/utils/PerfectIndexMap.h:152-171 | The same by the name vectors. |
| `PerfectIndexMap.PerfectIndexMap.GetSingleKey` | proxygen/lib/utils/PerfectIndexMap.h:192-204 | A value exactly when there is one live entry. |
| `PerfectIndexMap.PerfectIndexMap.GetSingleOtherKey` | proxygen/lib/utils/PerfectIndexMap.h:205-215 | The same by the name vectors. |
| `PerfectIndexMap.PerfectIndexMap.Add` | proxygen/lib/utils/PerfectIndexMap.h:98-111 | Appends an entry to the multimap. |
| `PerfectIndexMap.PerfectIndexMap.Set` | proxygen/lib/utils/PerfectIndexMap.h:117-129 | Refines setting in the list, and keeps a map without duplicates one. |
| `PerfectIndexMap.PerfectIndexMap.Remove` | proxygen/lib/utils/PerfectIndexMap.h:135-146 | Refines removal, and says whether there was one. |
| `PerfectIndexMap.PerfectIndexMap.GetSingleOrNone` | proxygen/lib/utils/PerfectIndexMap.h:57-67 | Refines lookup. |
| `WeakRefCountedPtr.World.constructor` | proxygen/lib/utils/WeakRefCountedPtr.h:57-61 | At first there is nothing. |
| `WeakRefCountedPtr.World.NewTarget` | proxygen/lib/utils/WeakRefCountedPtr.h:69-72 | A target has no shared state at first. |
| `WeakRefCountedPtr.World.DestroyTarget` | proxygen/lib/utils/WeakRefCountedPtr.h:80-87 | Destroying a target leaves its state behind for the handles, or frees it if there are none; no other target goes. |
| `WeakRefCountedPtr.World.Release` | proxygen/lib/utils/WeakRefCountedPtr.h:238-248 | One handle less, and the state freed with the last one of a dead target. |
| `WeakRefCountedPtr.World.DestroyPtr` | proxygen/lib/utils/WeakRefCountedPtr.h:238-250 | Detaching a handle, with a hook that may destroy the target and with it the state the handle still points to; exactly that target goes. |
| `WeakRefCountedPtr.World.Attach` | proxygen/lib/utils/WeakRefCountedPtr.h:220-224 | One handle more. |
| `WeakRefCountedPtr.World.InitPtr` | proxygen/lib/utils/WeakRefCountedPtr.h:220-230 | Attaching, with a hook that may destroy the target but cannot free the state. |
| `WeakRefCountedPtr.World.GetWeakRefCountedPtr` | proxygen/lib/utils/WeakRefCountedPtr.h:102-109 | The first handle makes the shared state; no other target and no other handle changes. |
| `WeakRefCountedPtr.World.NumWeakRefCountedPtrs` | proxygen/lib/utils/WeakRefCountedPtr.h:114-119 | The number of handles that hold the target's state. |
| `WeakRefCountedPtr.World.NewHandle` | proxygen/lib/utils/WeakRefCountedPtr.h:162-164 | A default handle holds nothing. |
| `WeakRefCountedPtr.World.DropHandle` | proxygen/lib/utils/WeakRefCountedPtr.h:188-190 | The destructor detaches. |
| `WeakRefCountedPtr.World.Get` | proxygen/lib/utils/WeakRefCountedPtr.h:192-197 | Never a destroyed target; null only if there is none or it is gone. |
| `WeakRefCountedPtr.World.Copy` | proxygen/lib/utils/WeakRefCountedPtr.h:166-168 | Copy construction: the same state, and exactly which target goes. |
| `WeakRefCountedPtr.World.Move` | proxygen/lib/utils/WeakRefCountedPtr.h:170-173 | Move construction: the state changes hands, no target goes, nothing is freed. |
| `WeakRefCountedPtr.World.Assign` | proxygen/lib/utils/WeakRefCountedPtr.h:175-179 | Copy assignment, and exactly which targets go; a handle assigned to itself ends detached. |
| `WeakRefCountedPtr.World.MoveAssign` | proxygen/lib/utils/WeakRefCountedPtr.h:181-186 | Move assignment, likewise. |
| `WeakRefCountedPtr.World.FreedExactly` | proxygen/lib/utils/WeakRefCountedPtr.h:80-250 | A state has been freed, once, if and only if its target is gone and no handle holds it. |
| `WeakRefCountedPtr.World.NothingLeaks` | proxygen/lib/utils/WeakRefCountedPtr.h:80-250 | When all targets and handles are gone, every state has been freed. |
| `WeakRefCountedPtr.Client.Run` | proxygen/lib/utils/WeakRefCountedPtr.h:66-254 | Over every list of operations: no access to a freed state, no state freed twice, none freed early, and a freed state stays freed. |
| `RendezvousHash.BestIsUnique` | proxygen/lib/utils/RendezvousHash.cpp:158-162 | There is one first node with the highest score. |
| `RendezvousHash.GetBest` | proxygen/lib/utils/RendezvousHash.cpp:141-166 | The running maximum finds it. |
| `RendezvousHash.RemovalMovesOwnKeys` | proxygen/lib/utils/RendezvousHash.cpp:133-170 | Taking a node away moves only the keys that were on it; read backwards, adding one moves keys only to it. |
| `RendezvousHash.LoweringMovesOwnKeys` | proxygen/lib/utils/RendezvousHash.cpp:133-170 | Lowering a score moves only the keys of that node. |
| `RendezvousHash.RaisingAttractsKeys` | proxygen/lib/utils/RendezvousHash.cpp:133-170 | Raising a score moves keys only to that node. |
| `RendezvousHash.MinimalMovement` | proxygen/lib/utils/RendezvousHash.cpp:133-170 | The same for nodes with weights and any score that grows with the weight. |
| `RendezvousHash.NthElement` | proxygen/lib/utils/RendezvousHash.cpp:172-175 | A selection with the guarantee of std::nth_element. |
| `RendezvousHash.RankIsExact` | proxygen/lib/utils/RendezvousHash.cpp:171-177 | The node at rank r is outranked by exactly r nodes, the ones before it. |
| `RendezvousHash.FrontIsSelection` | proxygen/lib/utils/RendezvousHash.cpp:179-188 | The nodes before it are distinct, and none that was not chosen outranks one that was. |
| `RendezvousHash.RendezvousHash.constructor` | proxygen/lib/utils/RendezvousHash.cpp:19-26 | No nodes at first. |
| `RendezvousHash.RendezvousHash.Build` | proxygen/lib/utils/RendezvousHash.cpp:19-26 | Nodes are added in order behind those there are. |
| `RendezvousHash.RendezvousHash.GetNthByWeightedHash` | proxygen/lib/utils/RendezvousHash.cpp:133-191 | Both, for every rank modulo the number of nodes; rank 0 is the best node. |
| `RendezvousHash.RendezvousHash.SelectNUnweighted` | proxygen/lib/utils/RendezvousHash.cpp:199-212 | As many distinct top nodes as asked for, all of them if there are no more; for rank 0 the source still returns one. |
| `Window.EveryRunKeepsAccount` | proxygen/lib/http/Window.cpp:38-98 | Over every run the bounds hold, what is outstanding is what successful calls reserved less what they freed, and the capacity is the one accepted last. |
| `Window.RefusedExactly` | proxygen/lib/http/Window.cpp:38-98 | A call is refused if and only if it would break the bounds, or a strict one overdraw the window. |
| `Window.Window.constructor` | proxygen/lib/http/Window.cpp:16-18 | A new window has nothing outstanding. |
| `Window.Window.GetSize` | proxygen/lib/http/Window.cpp:20-22 | The size never overflows 32 bits. |
| `Window.Window.Reserve` | proxygen/lib/http/Window.cpp:38-58 | Succeeds exactly when the sums fit and, if strict, within the capacity; a strict success leaves no negative size. |
| `Window.Window.Free` | proxygen/lib/http/Window.cpp:60-79 | Succeeds exactly when the amount and the resulting size are at most 2^31-1. |
| `Window.Window.SetCapacity` | proxygen/lib/http/Window.cpp:81-98 | Succeeds exactly when the capacity and the resulting size are at most 2^31-1. |

## Left out

- Pausing, failing callbacks and the lenient mode of the HTTP parser.
- The HTTP parser's own use of the strict URL character class (the build flag HTTP_PARSER_STRICT_URL); the URL parser
  models all three classes, and ParseURL those of that build.
- ContentLengthExact: states the number of one header line; for further lines see FoldedLength.
- ChunksInPieces: assumes that the first size line still fits into MAX_HEADER_SIZE, because the call refuses it otherwise; after the headers of a request one byte has been counted (HeadersEnd).
- RequestRoundTrip: covers requests that ask for no upgrade and whose body is not skipped; for the heads of the others see ReadHead and UpgradedRequest.
- ResponseRoundTrip: responses with an Upgrade header are covered up to the end of their head (ReadResponseHead).
- FoldedHeader: covers ordinary headers; a Transfer-Encoding or Upgrade that goes on in further lines is not covered.
- RefusedExactly: does not state the errors of methods; which methods are refused is in MethodExact.
- EveryRunIsCoherent: speaks of URLs of any length, while the source's offsets into them are 16-bit numbers.
- UrlFields.ParseUrl: assumes at most 65535 bytes, because its offsets are 16-bit numbers; so do the classes that use it.
- HTTPMessage: strict re-parsing of the URL and percent-decoding of parameters are not modelled.
- AsyncTimeoutSet: callbacks that move between sets, destroy() and request contexts are not modelled.
- HTTPHeaders: combine and the ownership of name strings are not modelled; a Connection header that names Connection is outside the contract of stripping.
- PerfectIndexMap: update is not modelled.
- WeakRefCountedPtr: hooks that do more than destroy the target, such as using other handles, are not modelled.
- RendezvousHash: floating-point rounding; rank 0 and higher ranks break ties differently, and no agreement is claimed.
- Servers, acceptors, connectors, sessions, codecs for HTTP/2 and HTTP/3, compression, sampling and tracing: they
  rest on libraries that are not part of this model, or would only add easy members.
