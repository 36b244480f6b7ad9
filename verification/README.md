# Model of the bidding server and its HTTP framework

This project models, in Dafny, the parts of a small ad-bidding server and of the Drogon framework it is built on
where the behaviour is hard to see from one function body, and proves properties of the model.

- **Pipelining.** `PipelineServer` states what a server connection does with batches of requests and with the
  completion of their handlers, synchronous, later in the loop or from another thread; `PipelineServerProofs` proves
  what holds over every run; `HttpServer` is the same in the form the framework has it. `PipelineClient`,
  `PipelineClientProofs` and `HttpClient` do this for the client's two queues, its timers and its errors,
  `PipelineClientOrder` says when it keeps the order, `ClientProgress` and `ServerAnswers` that nothing is left lying on
  either side, `ServerLimits` when a connection is refused, and `EndToEnd` composes both sides over connections that may
  break. `WireBytes` takes one connection down to its bytes, `UserBytes` ties the client's callbacks to them, and
  `ParserReplies` adds what the parser writes by itself.
- **Requests.** `RequestParser` is the incremental parser and its read loop as functions, `HttpRequestParser` and
  `HttpRequest` the objects, `BodyStore` the storage of bodies. `SegmentationProofs` says when the cut into reads
  matters, `LostRequests` which requests an error takes with it, `Refusals` what is refused with which status,
  `HeaderFields` what header lines mean, `ChunkedBody` what chunked bodies decode to and that limits hold,
  `RequestPrinter` and `PrinterProofs` that parsing inverts printing.
- **Responses.** `ResponseParser`, `ResponseSegmentation`, `HttpResponseParser`, `ResponseRenderer` and
  `ResponseRoundTrip` do the same for responses, `ResponseHeaders` says what their lines mean and `ResponseBodies` what
  the framings that the renderer does not use; `MessageExamples` has whole messages byte for byte; `CachedRender` is the cached rendering with its date patch.
- **Codecs.** `UrlCodec`, `FormParameters`, `Base64`; `Text`, `Buffers`, `Bytes` and `Wrappers` hold what is shared.
- **WebSocket.** `WebSocket` and `WebSocketProofs` give frames, their meaning and the parser, `WebSocketFrames` their
  bytes; `WebSocketConnection` has the objects.
- **Auction.** `Campagne` and `CampagnesManager` are campaigns and their manager as one thread runs them, `Draw` the
  weighted draw, `Auction` the protocol as threads interleave between locks, `Targeting` whom a campaign reaches.
- **Database dispatch.** `DbDispatch` and `DbClient`.

Objects whose methods change fields are classes; each method is proved against a function of its old state, and the
properties over runs are lemmas about those functions. Sockets, timers, threads, clocks, random numbers and user
callbacks are events or parameters: a run is any sequence of events that the surroundings allow.

Some properties that the documentation or the structure of the code suggests do not hold. For these the model keeps
the code as it is, gives a concrete case, and proves for all inputs exactly when they hold.

| what fails | a case | exactly when |
|---|---|---|
| everything due on a connection is written | `HandlerThatBlocks` | `ResponsesInOrder` |
| what the parser sends keeps its place | `InterimOvertakes`, `OnlyTheRefusal`, `RefusalOvertakes` | `NotesInPlace` |
| at most depth + 1 requests are in flight | `TwoInFlight` | `DepthExceeded`, `DepthKept` |
| requests are completed in their order | `SecondOvertakes` | `CompletedInOrder` |
| a good stream is good in any cut | `StarvedMethodIsOptions` | `CutsThatWork`, `SegmentationIndependence` |
| a connection serves as many requests as configured | `LastIsRefused` | `RefusedExactlyWhen` |
| a response without length or chunks is handed over at the end | `NeverHandedOver` | `BodyBegins`, `BodilessResponse` |
| requests before an error are handled | `RequestLost` | `HandedOver` |
| a fragmented message is delivered when it is complete | `FragmentWaits` | `FragmentsArrive` |
| a printed cookie map comes back | `KeptParses` | `CookiesComeBack` |
| a body view, of the class by itself, is the stored body | `ReadTooEarly` | `ShownIsStored` |
| a cached response shows the present second | `SetBackClock` | `RightThroughout` |
| a thread that found a campaign wins | `SecondPhoneGetsNothing` | `PaysExactlyWhen` |
| a campaign with nothing left cannot win | `EmptyBudget` | `EmptyBudget`, `DrawsOwned` |
| the chance of a campaign is its share of the money left | `SmallBudgets` | `DrawsOwned`, `TotalBounds` |
| closed database connections get no work | `ClosedConnectionReturns`, `FailedCommandReturns` | `StaysLive` |
| a database connection works on one job at a time | `GivenBackTwice` | `WorksOnOne` |

## Model

| member | source | states |
|---|---|---|
| `PipelineServerProofs.ResponsesInOrder` | third-party/drogon/lib/src/HttpServer.cc:282-484 | Over every run of batches, in-loop and cross-thread completions, the bytes written are the responses of the first `n` requests received, in arrival order and each once, none behind a closing one; each is what an advice or handler offered for that very request; and everything that may be written is written if and only if no callback ever ran in its own iteration while its request headed the pipeline |
| `PipelineServerProofs.Drained` | third-party/drogon/lib/src/HttpServer.cc:386-467 | When every received request has been answered on an open connection and the case above did not occur, pipeline and response buffer are empty and all responses are on the wire |
| `PipelineServerProofs.SelfHeadSilences` | third-party/drogon/lib/src/HttpServer.cc:386-400 | From the moment that case occurs the pipeline never writes another byte to the connection, although responses are due |
| `PipelineServerProofs.HandlerThatBlocks` | third-party/drogon/lib/src/HttpServer.cc:386-400 | A two-event run that reaches it: a handler answers the pending request and then its own |
| `PipelineServerProofs.SeparateHandlersNeverBlock` | third-party/drogon/lib/src/HttpServer.cc:386-467 | If no handler completes an earlier request in the loop thread during its own iteration, everything due is written |
| `PipelineServerProofs.RunFrom` | third-party/drogon/lib/src/HttpServer.cc:311-484 | No response is invented or moved to another request: each recorded answer and queued completion was offered for its request by an event of the run |
| `ServerAnswers.EveryOfferIsHeard` | third-party/drogon/lib/src/HttpServer.cc:365-470 | In every run that leaves the connection open, each response that an advice gave or a completion brought, in the loop or from another thread, is the answer of its request or waits in the loop's queue |
| `ServerAnswers.AllAreWritten` | third-party/drogon/lib/src/HttpServer.cc:428-468 | If responses were offered for all received requests, then after as many turns of the loop as completions are queued, an open connection without the blocked case has written exactly these, in the order of the requests, and its deque is empty |
| `ServerLimits.RefusedExactlyWhen` | third-party/drogon/lib/src/HttpServer.cc:288-308 | Over every run a connection is refused if and only if a batch brings its count, or the requests that wait, to a limit; then it is closed and hands over nothing more |
| `ServerLimits.LimitsKept` | third-party/drogon/lib/src/HttpServer.cc:288-308 | In every state of every run, fewer requests have been handed over, and fewer wait, than the limits say |
| `ServerLimits.ServedBelowLimits` | third-party/drogon/lib/src/HttpServer.cc:288-308 | As long as fewer requests arrive than either limit none is refused |
| `ServerLimits.LastIsRefused` | third-party/drogon/lib/src/HttpServer.cc:288-296 | The request with which as many have come as a connection may serve is refused, and none but that number closes it |
| `HttpServer.Connection.PushResponseToPipelining` | third-party/drogon/lib/src/HttpRequestParser.cc:494-512 | The first slot of the request, and no other, gets the response |
| `HttpServer.Connection.SendResponse` | third-party/drogon/lib/src/HttpServer.cc:486-515 | One response: head only for HEAD, otherwise all of it and then its file; a closing one shuts the connection |
| `HttpServer.Connection.SendResponses` | third-party/drogon/lib/src/HttpServer.cc:517-568 | Several responses collected in one buffer: the wire grows by all through the first closing one, files in their place, and the buffer ends empty |
| `HttpServer.Connection.PopAnswered` | third-party/drogon/lib/src/HttpServer.cc:407-417 | Takes exactly the answered requests at the head of the deque, in order |
| `HttpServer.Connection.Finish` | third-party/drogon/lib/src/HttpServer.cc:401-426 | A completion behind its batch sends the response and those it was holding up, or stores it in its slot |
| `HttpServer.Connection.Callback` | third-party/drogon/lib/src/HttpServer.cc:365-470 | The completion callback in its three ways: own iteration, later in the loop, queued from another thread; nothing for a null response or a closed connection |
| `HttpServer.Connection.Handle` | third-party/drogon/lib/src/HttpServer.cc:311-475 | One iteration over a request: early push, sync advice, handler, late push |
| `HttpServer.Connection.Serve` | third-party/drogon/lib/src/HttpServer.cc:282-484 | A batch: limits, iterations, and the flush of the responses completed in it |
| `HttpServer.Connection.RunLoopQueue` | third-party/drogon/lib/src/HttpServer.cc:430-468 | The oldest completion queued by another thread runs as a later in-loop one |
| `PipelineClientProofs.ClientCallbacks` | third-party/drogon/lib/src/HttpClientImpl.cc:222-255 | Over every run, whatever the callbacks of responses and errors submit: each submitted request is in exactly one of completed, in flight and buffered; each user callback ran once for a completed or timed-out request and for no other, timer and result never both; at most depth + 2 requests are in flight, and none between events without a connection |
| `PipelineClientProofs.ErrorAnswersAll` | third-party/drogon/lib/src/HttpClientImpl.cc:535-550 | After an error on a live or lost connection, whatever its callbacks submit, every request submitted before it or by its callbacks has been answered and nothing is queued |
| `PipelineClientProofs.ErrorEmptiesQueues` | third-party/drogon/trantor/trantor/net/TcpClient.cc:85-107 | From every state: the error drains both queues, and dropping a live TCP client closes its connection and drains them once more |
| `PipelineClientProofs.IdleReset` | third-party/drogon/trantor/trantor/net/inner/TcpConnectionImpl.cc:598-672 | Dropping an idle connection after its last response answers nobody |
| `ClientProgress.WaitsForRoom` | third-party/drogon/lib/src/HttpClientImpl.cc:256-513 | In every state of every run of a new client, a buffered request means that a connection is being made, or that more than `depth` requests are in flight on it |
| `ClientProgress.ResponseSends` | third-party/drogon/lib/src/HttpClientImpl.cc:470-505 | The response to the oldest request sends the oldest buffered one on the same connection |
| `ClientProgress.DropsWhenIdle` | third-party/drogon/lib/src/HttpClientImpl.cc:470-513 | A response ends the connection if and only if it closes and afterwards nobody is in flight or buffered |
| `ClientProgress.TimedSubmissionEnds` | third-party/drogon/lib/src/HttpClientImpl.cc:222-255 | At any time after a submission with a timer, its user has been called or the timer may go off and then calls the user |
| `ClientProgress.ErrorTellsWhy` | third-party/drogon/lib/src/HttpClientImpl.cc:535-550 | Everybody pending when an error comes is told the reason of that very error |
| `ClientProgress.NothingSentWhenDown` | third-party/drogon/lib/src/HttpClientImpl.cc:535-550 | What callbacks submit while a lost connection is failed is never written to it and fails with the rest |
| `PipelineClientOrder.CompletedInOrder` | third-party/drogon/lib/src/HttpClientImpl.cc:222-550 | Over every run: requests are completed in the order of their submission, with those in flight and then those buffered behind them, if and only if no error overtakes: in its second loop, on a live connection with nothing in flight, the callback that finds the buffer just run empty submits more than the connection takes at once |
| `PipelineClientOrder.SecondOvertakes` | third-party/drogon/lib/src/HttpClientImpl.cc:535-550 | A run of a new client: the last failing callback of a bad response submits two requests, and the one that was not sent fails before the one that was |
| `PipelineClientProofs.TwoInFlight` | third-party/drogon/lib/src/HttpClientImpl.cc:470-505 | A run of a new client with pipelining off: a callback that submits two requests puts both in flight at once |
| `PipelineClientProofs.ResponseKeeps` | third-party/drogon/lib/src/HttpClientImpl.cc:440-513 | A response keeps each request in one place and each user callback single, whatever its callback submits, and never passes depth + 2 |
| `PipelineClientProofs.DepthExceeded` | third-party/drogon/lib/src/HttpClientImpl.cc:470-505 | A response leaves more than depth + 1 requests in flight if and only if its callback runs, finds nothing buffered, and submits more than the connection has room for |
| `PipelineClientProofs.DepthKept` | third-party/drogon/lib/src/HttpClientImpl.cc:470-505 | A run keeps to depth + 1 requests in flight in each of its states if and only if no callback of a response does that |
| `HttpClient.Client.SendRequestInLoop` | third-party/drogon/lib/src/HttpClientImpl.cc:256-425 | A submission is sent at once, or buffered while there is no connection, no room or something before it |
| `HttpClient.Client.OnConnected` | third-party/drogon/lib/src/HttpClientImpl.cc:46-66 | A new connection sends buffered requests while the pipeline has room |
| `HttpClient.Client.Invoke` | third-party/drogon/lib/src/HttpClientImpl.cc:240-252 | The callback of a queue entry reaches the user unless the timer did |
| `HttpClient.Client.OnRecvResponse` | third-party/drogon/lib/src/HttpClientImpl.cc:440-513 | A response completes the oldest request in flight and promotes one buffered request, or drops an idle closing connection |
| `HttpClient.Client.OnErrorInLoop` | third-party/drogon/lib/src/HttpClientImpl.cc:535-550 | Both queues are failed in order, with what their callbacks submit meanwhile, and the TCP client is dropped |
| `HttpClient.Client.ResetTcpClient` | third-party/drogon/trantor/trantor/net/TcpClient.cc:85-107 | Dropping the TCP client of a live connection fails what is queued with a network failure |
| `EndToEnd.CallbacksGetTheirResponses` | third-party/drogon/lib/src/HttpClientImpl.cc:256-513 | Client and server composed, in every run with any completion order and any number of broken connections: the k-th callback is that of the k-th request submitted and a successful one gets a response that the server gave for that request; a response never finds the client without a request |
| `WireBytes.BytesBothWays` | third-party/drogon/lib/src/HttpServer.cc:203-568 | One connection down to its bytes: requests printed and cut anywhere but where the parser starves, the server run on what was parsed, and its bytes rendered and cut anywhere; the i-th response the client reads is one that a handler offered for the i-th request printed, in the version of that request, without body for HEAD, closing if it does not keep alive, and nothing is left |
| `UserBytes.UserGetsTheBytes` | third-party/drogon/lib/src/HttpClientImpl.cc:256-513 | In every run of client and server over connections that may break, on the connection that is up: what the server received are the first requests parsed from any fine cut of the bytes of those sent; and of the responses read from any cut of the bytes it wrote, the i-th is what some handler gave for the i-th request, what that request was completed with, and what its user was told unless the timer was faster |
| `WireBytes.ResponsesArrive` | third-party/drogon/lib/src/HttpServer.cc:282-568 | Whatever the order of completions and the cut of the bytes, the client reads exactly the responses given for the first requests, in order |
| `ParserReplies.NotesInPlace` | third-party/drogon/lib/src/HttpRequestParser.cc:35-46 | Over every run of reads from a new connection, for all bytes and handlers: the status lines and interim responses that the parser sends by itself come behind the replies to all requests complete before them, if and only if it sends them only while the deque is empty and no request is complete before them in the same read |
| `ParserReplies.TraceCompletes` | third-party/drogon/lib/src/HttpServer.cc:219-276 | The order of events in one read, from which those runs are made, has exactly the requests complete before the first error |
| `ParserReplies.InterimOvertakes` | third-party/drogon/lib/src/HttpRequestParser.cc:251-285 | Any printed request and behind it, in the same read, the head of one that expects a 100: the 100 is written before the first request is even handed over |
| `ParserReplies.OnlyTheRefusal` | third-party/drogon/lib/src/HttpRequestParser.cc:138-156 | Any printed request and an unknown method behind it in one read: the refusal is all that is ever written |
| `ParserReplies.RefusalOvertakes` | third-party/drogon/lib/src/HttpRequestParser.cc:138-156 | The same in two reads: the refusal leaves while the first request is still being handled |
| `EndToEnd.ReadPairs` | third-party/drogon/lib/src/HttpClientImpl.cc:449-505 | The next unread response answers the oldest request in flight |
| `EndToEnd.PrefixDecodes` | third-party/drogon/lib/src/HttpServer.cc:517-568 | Responses written one behind the other are read back one by one |
| `SegmentationProofs.SegmentationIndependence` | third-party/drogon/lib/src/HttpRequestParser.cc:131-436 | For every byte stream and every cut into reads on a new connection: cuts that raise no error give the requests, parser state and leftover of one read; and when one read raises no error, a cut gives the same if and only if no read ends in an unfinished method of seven bytes or an unfinished line of 64K |
| `SegmentationProofs.CutsDoNotMatter` | third-party/drogon/lib/src/HttpServer.cc:219-276 | The same from any reachable parser state and leftover |
| `SegmentationProofs.CutsThatWork` | third-party/drogon/lib/src/HttpRequestParser.cc:157-322 | When the whole stream is fine, reading it in pieces raises an error exactly if some piece ends where the parser gives up on an unfinished method or line |
| `SegmentationProofs.StarvedMethodIsOptions` | third-party/drogon/lib/src/HttpRequestParser.cc:157-167 | The only valid method that can be cut fatally is OPTIONS, right before the blank behind it |
| `SegmentationProofs.ParseResumes` | third-party/drogon/lib/src/HttpRequestParser.cc:131-436 | A request complete in a read is the same with more bytes behind; otherwise parsing resumes as if the bytes had come together |
| `SegmentationProofs.FeedSplits` | third-party/drogon/lib/src/HttpServer.cc:219-276 | Reading in two parts adds up to reading at once, whenever the first part raises no error |
| `RequestParser.ParseProgress` | third-party/drogon/lib/src/HttpRequestParser.cc:131-436 | A call that completes a request consumes bytes, and one that does not leaves a state that can go on |
| `HttpRequestParser.IncrementalParser.ParseRequest` | third-party/drogon/lib/src/HttpRequestParser.cc:131-436 | The state loop over the buffer: result, parser state, remaining bytes and the error code sent, for every state and input |
| `HttpRequestParser.IncrementalParser.ParseMethod` | third-party/drogon/lib/src/HttpRequestParser.cc:138-167 | The method state: 405 for an unknown method, 400 for seven bytes without a blank |
| `HttpRequestParser.IncrementalParser.ParseLine` | third-party/drogon/lib/src/HttpRequestParser.cc:168-199 | The request line state: 400 for a bad line, 414 for 64K without line end |
| `HttpRequestParser.IncrementalParser.ParseHeader` | third-party/drogon/lib/src/HttpRequestParser.cc:200-323 | The header state, one field or the end of the headers |
| `HttpRequestParser.IncrementalParser.DetermineFraming` | third-party/drogon/lib/src/HttpRequestParser.cc:212-249 | Content-length, else no body, chunked, or 501 |
| `HttpRequestParser.IncrementalParser.Admit` | third-party/drogon/lib/src/HttpRequestParser.cc:251-309 | Expect header, body limit and reservation: 100, 413, 417, 400 or a reset with an interim 413 |
| `HttpRequestParser.IncrementalParser.ParseBody` | third-party/drogon/lib/src/HttpRequestParser.cc:324-353 | The body state takes what is announced and no more |
| `HttpRequestParser.IncrementalParser.ParseChunkLength` | third-party/drogon/lib/src/HttpRequestParser.cc:354-386 | A chunk size line, refused with 413 when the body would pass the limit |
| `HttpRequestParser.IncrementalParser.ParseChunkBody` | third-party/drogon/lib/src/HttpRequestParser.cc:387-413 | A chunk and its line end, or an error |
| `HttpRequestParser.IncrementalParser.ParseLastChunk` | third-party/drogon/lib/src/HttpRequestParser.cc:414-434 | The end of a chunked body: its length replaces the encoding header |
| `HttpRequestParser.IncrementalParser.Reset` | third-party/drogon/lib/src/HttpRequestParser.cc:113-129 | A fresh request in the first state |
| `HttpRequestParser.IncrementalParser.OnMessage` | third-party/drogon/lib/src/HttpServer.cc:219-276 | The read loop hands over objects that hold exactly the complete requests of the read, none of them the one the parser goes on with, or nothing after an error |
| `LostRequests.HandedOver` | third-party/drogon/lib/src/HttpServer.cc:219-276 | Of any stream in any cut, exactly the requests complete in the reads before the failing one are handed over and those complete in the failing read are lost; unless that read only starved, these are all that precede the error, so all are handed over if and only if none completes in the failing read |
| `LostRequests.RequestLost` | third-party/drogon/lib/src/HttpServer.cc:219-236 | Any printed request followed by an unknown method: lost in one read, handed over in two |
| `LostRequests.FeedCompleted` | third-party/drogon/lib/src/HttpServer.cc:219-276 | A read without error hands over what it completes, and one with an error nothing |
| `LostRequests.ReadsCount` | third-party/drogon/lib/src/HttpRequestParser.cc:200-353 | The count that the limit of a connection is compared with is the number of requests handed over |
| `Refusals.MethodRead` | third-party/drogon/lib/src/HttpRequestParser.cc:138-167 | A first word other than the seven methods, listed by name, is answered 405; each of the seven is taken as itself |
| `Refusals.NoMethodYet` | third-party/drogon/lib/src/HttpRequestParser.cc:157-167 | Six bytes without a blank wait for more, seven are answered 400 |
| `Refusals.RequestLineRead` | third-party/drogon/lib/src/HttpRequestParser.cc:48-84 | A request line is taken if and only if it is one word, one blank and HTTP/1.0 or HTTP/1.1, otherwise answered 400 |
| `Refusals.EndlessLine` | third-party/drogon/lib/src/HttpRequestParser.cc:186-199 | A line without end waits until 65536 bytes are there: 414 for the request line, 400 for a header |
| `Refusals.MalformedLength` | third-party/drogon/lib/src/HttpRequestParser.cc:212-217 | A length that does not begin with a digit ends the connection without an answer |
| `Refusals.OtherEncoding` | third-party/drogon/lib/src/HttpRequestParser.cc:230-249 | Without a length, any encoding but chunked is answered 501 |
| `Refusals.OtherExpectation` | third-party/drogon/lib/src/HttpRequestParser.cc:288-299 | Any expectation but 100-continue, and that one in HTTP/1.0, is answered 417 |
| `Refusals.NothingToContinue` | third-party/drogon/lib/src/HttpRequestParser.cc:251-260 | 100-continue without an announced body, chunks included, is answered 400 |
| `Refusals.BodyTooLong` | third-party/drogon/lib/src/HttpRequestParser.cc:300-307 | A body announced over the limit is answered 413 |
| `Refusals.ContinueTooLong` | third-party/drogon/lib/src/HttpRequestParser.cc:265-279 | 100-continue for a body over the limit: 413 is written, and what follows is read as the next request of the same connection |
| `Refusals.ContinueSent` | third-party/drogon/lib/src/HttpRequestParser.cc:280-287 | 100-continue within the limit: 100 is written and the announced body is read |
| `HeaderFields.LinesTaken` | third-party/drogon/lib/src/HttpRequestParser.cc:200-207 | Any lines of names and values between blanks are read as these names and values, one after the other |
| `HeaderFields.FieldsMean` | third-party/drogon/lib/src/HttpRequestImpl.cc:361-449 | Of the header lines with one name in any case the first counts, with its value trimmed of the six blanks; cookie lines are apart |
| `HeaderFields.KeepAliveMeans` | third-party/drogon/lib/src/HttpRequestImpl.cc:425-446 | Over all header lines: HTTP/1.1 stays unless some line says close, HTTP/1.0 closes unless some line says keep-alive |
| `HeaderFields.ExpectMeans` | third-party/drogon/lib/src/HttpRequestImpl.cc:425-446 | Of several Expect lines the last counts |
| `HeaderFields.CookiesMean` | third-party/drogon/lib/src/HttpRequestImpl.cc:378-423 | What a cookie line means: split at semicolons, pieces without an equals sign dropped, blanks in front of names skipped, values kept as they are, later ones winning |
| `HttpRequest.RequestImpl.SetMethod` | third-party/drogon/lib/src/HttpRequestImpl.cc:558-636 | Succeeds if and only if the token is the name under which some method is printed, and then stores the method of that name |
| `HttpRequest.MethodInverts` | third-party/drogon/lib/src/HttpRequestImpl.cc:558-636 | Reading inverts naming for each of the seven methods, and nothing else is read as one |
| `HttpRequest.RequestImpl.SetPathFrom` | third-party/drogon/lib/src/HttpRequestImpl.h:107-118 | The path, decoded when it has escapes |
| `HttpRequest.RequestImpl.ProcessRequestLine` | third-party/drogon/lib/src/HttpRequestParser.cc:48-84 | Path, query and version of a request line, or refusal |
| `HttpRequest.RequestImpl.AddHeaderLine` | third-party/drogon/lib/src/HttpRequestImpl.cc:361-449 | A header line: lower-case name, trimmed value, cookies apart, the first of a name kept, keep-alive and expectation updated |
| `HttpRequest.RequestImpl.AddCookies` | third-party/drogon/lib/src/HttpRequestImpl.cc:378-423 | A cookie line split at semicolons |
| `ChunkedBody.ChunkedRequest` | third-party/drogon/lib/src/HttpRequestParser.cc:354-433 | For every list of nonempty chunks in any spelling of section 4.1 of RFC 7230 without trailers: the body is their concatenation, content-length its length, transfer-encoding gone, the following bytes left; or 413 if and only if it exceeds the limit |
| `ChunkedBody.ChunksDecode` | third-party/drogon/lib/src/HttpRequestParser.cc:354-433 | The same from within a body already begun |
| `ChunkedBody.HexRoundTrip` | third-party/drogon/lib/src/HttpRequestParser.cc:356-362 | Every length has a size line that is read as that length |
| `ChunkedBody.DigitTable` | third-party/drogon/lib/src/HttpRequestParser.cc:356-362 | The sixteen digits in both cases, one by one, and no other character |
| `ChunkedBody.PrefixedSize` | third-party/drogon/lib/src/HttpRequestParser.cc:356-362 | Blanks and 0x in front of a chunk size do not change it |
| `ChunkedBody.LimitsHold` | third-party/drogon/lib/src/HttpRequestParser.cc:299-372 | Over every stream and cut, no request handed over and no parser state holds, or has been promised, more than the body limit, nor more in memory than the memory limit; received body plus current chunk stays within it |
| `ChunkedBody.TurnLimits` | third-party/drogon/lib/src/HttpRequestParser.cc:324-433 | Every turn of the parser keeps received and announced bytes within the limit |
| `BodyStore.StoredBody` | third-party/drogon/lib/src/HttpRequestImpl.cc:642-676 | After any reservation and any appends, the view is the concatenation of the data, in memory or on file, and memory never holds more than the limit |
| `BodyStore.AppendTwice` | third-party/drogon/lib/src/HttpRequestImpl.cc:655-676 | Where the data was cut makes no difference |
| `BodyStore.FileExactlyWhen` | third-party/drogon/lib/src/HttpRequestImpl.cc:642-676 | A file is made if and only if the body was announced, or turns out, longer than the memory limit |
| `BodyStore.RequestBody.ReserveBodySize` | third-party/drogon/lib/src/HttpRequestImpl.cc:642-653 | A length above the memory limit opens a file |
| `BodyStore.RequestBody.AppendToBody` | third-party/drogon/lib/src/HttpRequestImpl.cc:655-676 | Data goes to memory, to the file, or moves the memory part to a new file |
| `BodyStore.RequestBody.BodyView` | third-party/drogon/lib/src/HttpRequestImpl.h:157-164 | The first view after all appends is the stored body; a view taken earlier is frozen |
| `BodyStore.ShownIsStored` | third-party/drogon/lib/src/HttpRequestImpl.h:157-164 | Over every run of appends and looks, the body shown is the stored one if and only if no data came after a look that found some in the file |
| `BodyStore.ReadTooEarly` | third-party/drogon/lib/src/HttpRequestImpl.h:157-164 | A body looked at before its last piece arrives is cut short on every later look (the parser itself hands a request over only when it is complete) |
| `PrinterProofs.PrintedParses` | third-party/drogon/lib/src/HttpRequestImpl.cc:166-359 | Parsing a printed request, followed by any bytes, recovers method, path, query, version, headers, keep-alive and body, and the cookies up to their blanks, and leaves exactly those bytes; or answers 413 if and only if the body exceeds the limit |
| `PrinterProofs.PrintedStream` | third-party/drogon/lib/src/HttpRequestImpl.cc:166-359 | Any number of printed requests on one connection, cut anywhere but where the parser starves, are all recovered in order with nothing left |
| `PrinterProofs.PrintedFeed` | third-party/drogon/lib/src/HttpRequestImpl.cc:166-359 | Printed requests one behind the other are recovered as the same list |
| `PrinterProofs.ParametersArrive` | third-party/drogon/lib/src/HttpRequestImpl.cc:64-164 | Parameters set on a form request are the parameters the receiver parses, whether they travel in the query or in the body |
| `PrinterProofs.CookiesComeBack` | third-party/drogon/lib/src/HttpRequestImpl.cc:339-352 | The cookie map of a printed request comes back as it was if and only if it is empty or holds a single cookie with an empty value: the parser keeps the blank printed behind each equals sign |
| `PrinterProofs.KeptParses` | third-party/drogon/lib/src/HttpRequestImpl.cc:378-423 | What a printed cookie line is read as: every value with a blank in front, except for an empty last one |
| `PrinterProofs.HeadedIs` | third-party/drogon/lib/src/HttpRequestImpl.cc:319-358 | The header map after parsing: the user's headers, with those the printer adds by itself winning |
| `PrinterProofs.TargetSplits` | third-party/drogon/lib/src/HttpRequestImpl.cc:199-248 | Path and query of a printed target, also when the path has a question mark of its own |
| `RequestPrinter.AppendToBuffer` | third-party/drogon/lib/src/HttpRequestImpl.cc:166-359 | The printed bytes of every request that is neither multipart nor passed through, also with no method or version |
| `RequestPrinter.AppendParameters` | third-party/drogon/lib/src/HttpRequestImpl.cc:206-248 | Parameters go to the query for GET, DELETE and HEAD, to the body otherwise, and nowhere for JSON |
| `RequestPrinter.AppendQuery` | third-party/drogon/lib/src/HttpRequestImpl.cc:220-237 | The separator found by searching the whole output for a question mark |
| `FormParameters.FormRoundTrip` | third-party/drogon/lib/src/HttpRequestImpl.cc:64-164 | For every string map and every order of its keys, joining the encoded pairs and parsing them gives the same map |
| `FormParameters.FormArrives` | third-party/drogon/lib/src/HttpRequestImpl.cc:64-164 | The same through the query or through the body |
| `FormParameters.InputMeans` | third-party/drogon/lib/src/HttpRequestImpl.cc:64-164 | What any input means: leading question marks and blanks skipped, pieces without an equals sign dropped, blanks in front of keys skipped, keys and values decoded, later pairs winning |
| `FormParameters.ParseParameters` | third-party/drogon/lib/src/HttpRequestImpl.cc:64-164 | Skipping, splitting, trimming and decoding one input, for all inputs |
| `FormParameters.WriteParameters` | third-party/drogon/lib/src/HttpRequestImpl.cc:206-219 | Encoded pairs joined by ampersands |
| `UrlCodec.ComponentRoundTrip` | third-party/drogon/lib/src/Utilities.cc:560-655 | Decoding an encoded component gives it back, for every byte string |
| `UrlCodec.PathRoundTrip` | third-party/drogon/lib/src/Utilities.cc:656-763 | The same for paths |
| `UrlCodec.ComponentIsPlain` | third-party/drogon/lib/src/Utilities.cc:560-655 | An encoded component has none of the characters that forms and request lines give meaning to |
| `UrlCodec.PathIsPlain` | third-party/drogon/lib/src/Utilities.cc:656-763 | An encoded path has no blank or line end, and a question mark only where the path has |
| `UrlCodec.KeptTable` | third-party/drogon/lib/src/Utilities.cc:560-660 | The characters that each encoder leaves alone, as literal lists |
| `UrlCodec.ComponentByBytes` | third-party/drogon/lib/src/Utilities.cc:560-655 | Wherever a byte stands: a blank becomes a plus, a listed one stays, any other becomes a percent sign and its two capital hexadecimal digits |
| `UrlCodec.PathByBytes` | third-party/drogon/lib/src/Utilities.cc:656-763 | The same for paths with their longer list |
| `UrlCodec.PiecesDecode` | third-party/drogon/lib/src/Utilities.cc:764-823 | What any text decodes to: escapes with digits of either case, pluses, and percent signs without two digits behind them, which stay |
| `UrlCodec.UrlEncodeComponent` | third-party/drogon/lib/src/Utilities.cc:560-655 | The encoding loop, character by character |
| `UrlCodec.UrlEncode` | third-party/drogon/lib/src/Utilities.cc:656-763 | The same for whole paths |
| `UrlCodec.UrlDecode` | third-party/drogon/lib/src/Utilities.cc:764-823 | The decoding loop, malformed escapes included |
| `Base64.RoundTrip` | third-party/drogon/lib/src/Utilities.cc:386-544 | base64Decode inverts base64Encode for every byte string and both alphabets, and the length is four for every started group of three |
| `Base64.AlphabetsAre` | third-party/drogon/lib/src/Utilities.cc:85-93 | The two alphabets letter by letter, and the place of each letter |
| `Base64.EncodedAt` | third-party/drogon/lib/src/Utilities.cc:386-434 | Every character of the encoding is the letter of the six bits that it stands for, from the highest, or fills up the last group |
| `Base64.DecodedAt` | third-party/drogon/lib/src/Utilities.cc:492-543 | Any text decodes to the whole bytes of the bits of its letters, of either alphabet, up to the first other character |
| `Base64.PaddingUnseen` | third-party/drogon/lib/src/Utilities.cc:501-538 | The index that padding and foreign characters get never reaches the output |
| `Base64.SignedAgrees` | third-party/drogon/lib/src/Utilities.cc:436-490 | The signed arithmetic of the vector decoder gives the same bytes |
| `Base64.Base64Encode` | third-party/drogon/lib/src/Utilities.cc:386-434 | The encoding loop over its three- and four-element arrays |
| `Base64.Base64Decode` | third-party/drogon/lib/src/Utilities.cc:492-543 | The decoding loop, on every input |
| `Base64.Base64DecodeToVector` | third-party/drogon/lib/src/Utilities.cc:436-490 | The vector decoder agrees with the string decoder on every input |
| `ResponseSegmentation.ResponsesSurviveCuts` | third-party/drogon/lib/src/HttpResponseParser.cc:75-296 | For every byte stream and every cut, the client hands over the same responses and ends in the same state or the same failure as for one read, without exception |
| `ResponseSegmentation.ParseResumes` | third-party/drogon/lib/src/HttpResponseParser.cc:75-296 | A response complete in a read stays the same with more bytes behind, an error stays an error, and otherwise parsing resumes |
| `ResponseBodies.ChunkedResponse` | third-party/drogon/lib/src/HttpResponseParser.cc:207-290 | For every list of nonempty chunks in any spelling: the body is their concatenation, content-length its length, transfer-encoding gone, the other headers kept, the following bytes left |
| `ResponseBodies.BodilessResponse` | third-party/drogon/lib/src/HttpResponseParser.cc:113-157 | 204, and 101 to a WebSocket, end with their headers |
| `ResponseBodies.BodyBegins` | third-party/drogon/lib/src/HttpResponseParser.cc:113-157 | Any other response with neither length nor chunks takes all that follows as its body |
| `ResponseBodies.NeverHandedOver` | third-party/drogon/lib/src/HttpResponseParser.cc:206-213 | Such a body is collected whole over any reads, but the response is not handed over, however many come |
| `ResponseHeaders.StatusMeans` | third-party/drogon/lib/src/HttpResponseParser.cc:38-72 | A status line of any word that ends in 0 or 1, a code of digits and any message is taken with that version and the number the digits spell |
| `ResponseHeaders.OtherLines` | third-party/drogon/lib/src/HttpResponseParser.cc:38-72 | Every other status line ends the connection |
| `ResponseHeaders.AtoiMeans` | third-party/drogon/lib/src/HttpResponseParser.cc:38-72 | The number read from a code or length: blanks in front are skipped and whatever follows the digits is not looked at |
| `ResponseHeaders.FieldsMean` | third-party/drogon/lib/src/HttpResponseImpl.cc:485-577 | Of the header lines with one name in any case the last counts, with its value trimmed; Set-Cookie lines are apart |
| `ResponseHeaders.CookiesKept` | third-party/drogon/lib/src/HttpResponseImpl.cc:485-577 | All Set-Cookie lines are kept in their order, and nothing else of the response changes |
| `MessageExamples.ResponseExample` | third-party/drogon/lib/src/HttpResponseImpl.cc:243-483 | A response with every kind of line, byte for byte |
| `MessageExamples.QueryExample` | third-party/drogon/lib/src/HttpRequestImpl.cc:166-359 | A printed request with parameters in the query, headers and cookies, byte for byte |
| `MessageExamples.FormExample` | third-party/drogon/lib/src/HttpRequestImpl.cc:166-359 | The same parameters printed as a form, in front of the content set, byte for byte |
| `ResponseRoundTrip.RenderedParses` | third-party/drogon/lib/src/HttpResponseImpl.cc:243-319 | Parsing a rendered response, followed by any bytes, recovers version, status, all headers, cookie lines and body and leaves exactly those bytes; for HEAD just the head |
| `ResponseRoundTrip.RenderedStream` | third-party/drogon/lib/src/HttpResponseImpl.cc:363-444 | Any number of rendered responses, HEAD or not, cut anywhere, are read back in order with nothing left |
| `ResponseRenderer.MakeHeaderString` | third-party/drogon/lib/src/HttpResponseImpl.cc:243-319 | Status line, length, connection, type, server and own headers, in that order |
| `ResponseRenderer.RenderToBuffer` | third-party/drogon/lib/src/HttpResponseImpl.cc:393-444 | Head, and the body unless the request was HEAD |
| `ResponseRenderer.RenderHeader` | third-party/drogon/lib/src/HttpResponseImpl.cc:446-483 | Everything in front of the body |
| `ResponseRenderer.CachedTextIsRendered` | third-party/drogon/lib/src/HttpResponseImpl.cc:363-444 | The text the cache keeps is this rendering for the second shown |
| `HttpResponseParser.ResponseReader.ParseResponse` | third-party/drogon/lib/src/HttpResponseParser.cc:75-296 | The state loop over the buffer, for every state and input |
| `HttpResponseParser.ResponseReader.ProcessResponseLine` | third-party/drogon/lib/src/HttpResponseParser.cc:38-72 | Version digit and status code, or refusal |
| `HttpResponseParser.ResponseReader.AddHeaderLine` | third-party/drogon/lib/src/HttpResponseImpl.cc:485-577 | A header line: the last of a name is kept, cookie lines apart |
| `HttpResponseParser.ResponseReader.EndOfHeaders` | third-party/drogon/lib/src/HttpResponseParser.cc:113-157 | What follows the headers: length, chunks, nothing, or everything until the close; nothing for HEAD |
| `HttpResponseParser.ResponseReader.ParseBody` | third-party/drogon/lib/src/HttpResponseParser.cc:166-205 | The body state |
| `HttpResponseParser.ResponseReader.OnRecvMessage` | third-party/drogon/lib/src/HttpClientImpl.cc:440-513 | The read loop hands over each response as it completes, those before a failure included |
| `CachedRender.CacheIsInvisible` | third-party/drogon/lib/src/HttpResponseImpl.cc:363-444 | With the expiry set once, every render in any sequence of clock readings is what an uncached render would give at that second |
| `CachedRender.CacheIsInvisibleOverChanges` | third-party/drogon/lib/src/HttpResponseImpl.cc:363-444 | With the expiry set again at any time, the same while the clock never goes back |
| `CachedRender.RightThroughout` | third-party/drogon/lib/src/HttpResponseImpl.cc:363-444 | Over any renders at any clock readings and any expiry changes, every text is what an uncached render gives, if and only if no render finds the clock back at the second of the last patch while the kept text shows another date |
| `CachedRender.RightExactlyWhen` | third-party/drogon/lib/src/HttpResponseImpl.cc:372-391 | The same for one render |
| `CachedRender.SetBackClock` | third-party/drogon/lib/src/HttpResponseImpl.h:250-258 | Setting the expiry does not forget the last patch: a clock set back to it renders the wrong date |
| `CachedRender.DateAt` | third-party/drogon/lib/src/HttpResponseImpl.cc:381-388 | Patching the date in place gives the text of the new second |
| `CachedRender.Response.RenderToBuffer` | third-party/drogon/lib/src/HttpResponseImpl.cc:363-444 | Returns the text for the second shown and changes this object alone: no buffer handed out before is touched |
| `CachedRender.Response.SetExpiredTime` | third-party/drogon/lib/src/HttpResponseImpl.h:250-258 | Forgets where the date is, so that the next render starts anew |
| `WebSocketProofs.StreamArrives` | third-party/drogon/lib/src/WebSocketConnectionImpl.cc:322-363 | For every sequence of messages framed one by one, masked or not, and every cut: exactly these payloads and kinds are delivered in order, each ping before a close gets one pong of equal payload, nothing is left |
| `WebSocketProofs.FragmentsArrive` | third-party/drogon/lib/src/WebSocketConnectionImpl.cc:184-363 | A message in fragments, each with its own mask, and every cut: it is delivered whole, with the kind of the first fragment, if and only if for every fragment there are as many reads from the one that completes it as fragments from it on; otherwise not at all |
| `WebSocketProofs.OneRead` | third-party/drogon/lib/src/WebSocketConnectionImpl.cc:322-363 | One read takes exactly the whole frames up to the first that does not end its message, with their meaning, and leaves the rest |
| `WebSocketProofs.PromptReads` | third-party/drogon/lib/src/WebSocketConnectionImpl.cc:322-363 | Without fragments every read delivers all that is whole, and less than one frame is kept |
| `WebSocketProofs.ReadsFollow` | third-party/drogon/lib/src/WebSocketConnectionImpl.cc:322-363 | For every legal stream and cut, what was delivered is always the meaning of some first frames and the bytes left are the rest of the stream |
| `WebSocketProofs.PartialFrame` | third-party/drogon/lib/src/WebSocketConnectionImpl.cc:184-320 | A strict prefix of a frame is never consumed |
| `WebSocketProofs.WholeFrame` | third-party/drogon/lib/src/WebSocketConnectionImpl.cc:184-320 | A whole frame is taken whatever is behind it, for all three length encodings |
| `WebSocketProofs.OneFragment` | third-party/drogon/lib/src/WebSocketConnectionImpl.cc:349-354 | A read takes the next fragment if it is complete, and no other |
| `WebSocketProofs.FragmentWaits` | third-party/drogon/lib/src/WebSocketConnectionImpl.cc:349-354 | Two fragments in one read: the second stays in the buffer until more bytes come |
| `WebSocket.MaskTwice` | third-party/drogon/lib/src/WebSocketConnectionImpl.cc:103-112 | Masking twice with one key restores the data |
| `WebSocketFrames.XorIsBitwise` | third-party/drogon/lib/src/WebSocketConnectionImpl.cc:103-112 | Masking inverts exactly the bits that the key has, for all bytes and all eight positions |
| `WebSocketFrames.BigEndianAt` | third-party/drogon/lib/src/WebSocketConnectionImpl.cc:72-102 | The most significant byte of a length comes first |
| `WebSocketFrames.PlainExamples` | third-party/drogon/lib/src/WebSocketConnectionImpl.cc:62-126 | The unmasked examples of section 5.7 of RFC 6455, byte for byte |
| `WebSocketFrames.MaskedExamples` | third-party/drogon/lib/src/WebSocketConnectionImpl.cc:103-119 | Its masked examples: the key and the masked Hello, byte for byte |
| `WebSocketFrames.LongExamples` | third-party/drogon/lib/src/WebSocketConnectionImpl.cc:72-102 | Its examples with two and eight length bytes, and an empty close |
| `WebSocketFrames.RefusedExactlyWhen` | third-party/drogon/lib/src/WebSocketConnectionImpl.cc:184-288 | Of all frames exactly those with an unknown opcode, a fragmented or long control frame, or a masked payload over the limit are refused |
| `WebSocketFrames.RefusalCloses` | third-party/drogon/lib/src/WebSocketConnectionImpl.cc:322-363 | A refused frame ends the writing and delivers nothing, whatever is behind it |
| `WebSocketFrames.StrayContinuation` | third-party/drogon/lib/src/WebSocketConnectionImpl.cc:331-354 | A continuation that continues nothing is dropped without a word, and what came behind it stays unread until the next read |
| `WebSocket.LengthRoundTrip` | third-party/drogon/lib/src/WebSocketConnectionImpl.cc:72-102 | A length written in network byte order is read back |
| `WebSocketConnection.Connection.SendWsData` | third-party/drogon/lib/src/WebSocketConnectionImpl.cc:62-126 | The frame written byte by byte into a buffer: header, length in one of three forms, key and masked payload for a client |
| `WebSocketConnection.Connection.MaskedFrame` | third-party/drogon/lib/src/WebSocketConnectionImpl.cc:103-119 | The mask bit, the key and the combined payload |
| `WebSocketConnection.WebSocketMessageParser.ParseFrame` | third-party/drogon/lib/src/WebSocketConnectionImpl.cc:184-320 | One call of the frame parser, every error and incomplete frame included |
| `WebSocketConnection.WebSocketMessageParser.GotAll` | third-party/drogon/lib/src/WebSocketConnectionImpl.h:31-39 | A complete message is handed over and an empty one left |
| `WebSocketConnection.Connection.OnNewMessage` | third-party/drogon/lib/src/WebSocketConnectionImpl.cc:322-363 | The read loop: deliveries, pongs actually sent as frames, close, errors and early returns |
| `Auction.AuctionIsSafe` | src/CampagnesManager.cpp:112-251 | For every interleaving of any number of threads between locks: no budget is negative, initial minus remaining budget is price times wins for each campaign, every arrival is answered once or in the hands of one thread and never both, and a win answers an arrival with the very request that arrived, which is admitted and suits the campaign |
| `Auction.PaysExactlyWhen` | src/CampagnesManager.cpp:243-246 | In every run, a thread about to pay answers 200 if and only if the price times one more than the wins so far is within the campaign's first budget, and 204 otherwise |
| `Auction.HandledAlone` | src/CampagnesManager.cpp:112-251 | A thread that nobody disturbs ends with the undisturbed choice, and that campaign pays once |
| `Auction.ChoiceIsEligible` | src/CampagnesManager.cpp:112-251 | Undisturbed, there is a winner if and only if some campaign suits the request and can pay, and the winner is such a one |
| `Auction.SecondThreadGetsNothing` | src/CampagnesManager.cpp:112-251 | The run from the opening: two requests arrive and are scanned side by side, both threads find the only campaign, the first wins, and the second answers 204 unless the budget covers both prices |
| `Auction.SecondPhoneGetsNothing` | src/CampagnesManager.cpp:112-251 | That run for one concrete campaign with money for one and two concrete requests |
| `Targeting.SuitsMeans` | src/CampagnesManager.cpp:122-226 | A campaign suits a request if and only if the screen has its size or, responsive, its proportions, the price reaches the floor, each include filter as configured names the language or device in any case or a part of the application, and no exclude filter does; an application or device that is not named fails any filter on it |
| `Targeting.WinnersAreTargeted` | src/CampagnesManager.cpp:112-251 | In every run, whoever wins does so for the request that arrived, which is complete and which the filters, price and screen of the campaign, as configured, let through |
| `Targeting.AnsweredAlone` | src/CampagnesManager.cpp:112-251 | A complete request handled alone is answered 200 by a campaign that it reaches and that pays its price, if there is one with the money, and otherwise 204 with no budget changed |
| `Targeting.Incomplete` | src/RtbCtrl.cpp:46-86 | Any other input is answered 204 as it arrives, and no budget changes |
| `Targeting.AcceptedExactlyWhen` | src/Campagne.cpp:14-103 | A campaign exists if and only if its data are there, its filters are among the three known with at most 10, 100 and 100000 values and none on both sides, its budget within 1 and 1000 and its price within 0.01 and 10 |
| `Auction.WinCostsThePrice` | src/Campagne.cpp:197-202 | The re-check and payment keep the accounts |
| `Campagne.Create` | src/Campagne.cpp:14-103 | A campaign is accepted if and only if all constructor checks hold |
| `Campagne.Campaign.DecrementeBudget` | src/Campagne.cpp:197-202 | Takes the price and keeps the budget nonnegative, or changes nothing |
| `Campagne.Compatible` | src/CampagnesManager.cpp:122-226 | The scan of one campaign equals its declarative meaning: size or ratio, budget, floor, included and excluded filters |
| `Campagne.CheckIncludes` | src/CampagnesManager.cpp:171-194 | The loop over the include filters with its running flag |
| `Campagne.CheckExcludes` | src/CampagnesManager.cpp:197-220 | The loop over the exclude filters |
| `CampagnesManager.FiltersIgnoreCase` | src/CampagnesManager.cpp:326-356 | Filters as loaded match languages and identifiers whatever their case, applications as substrings in their case |
| `CampagnesManager.LoadValues` | src/CampagnesManager.cpp:326-356 | Languages and identifiers are stored in lower case |
| `CampagnesManager.Manager.SelectCampagne` | src/CampagnesManager.cpp:112-251 | Scan, draw and payment on the campaign objects: the choice, and the one budget that changes |
| `CampagnesManager.Manager.RandomSelectCampagne` | src/CampagnesManager.cpp:253-303 | The draw on the budgets as they are |
| `CampagnesManager.Manager.Handle` | src/RtbCtrl.cpp:15-86 | The guard on mandatory fields, and the winner of 200 or none for 204, with the one budget that changes |
| `Draw.TotalBounds` | src/CampagnesManager.cpp:277-284 | The truncated total lies within the number of campaigns below the sum and never above it |
| `Draw.SomeoneWins` | src/CampagnesManager.cpp:286-300 | When the total is at least 1 the shares reach 100 per cent, so the loop always breaks |
| `Draw.SelectedIsWinner` | src/CampagnesManager.cpp:286-300 | It breaks at the first campaign whose cumulative share reaches the draw |
| `Draw.DrawsOwned` | src/CampagnesManager.cpp:271-302 | How many of the 101 draws each campaign owns: the difference of its cut-off shares, the first one more |
| `Draw.EmptyBudget` | src/CampagnesManager.cpp:286-300 | A campaign with nothing left owns no draw, unless it is the first, which owns the draw 0 |
| `Draw.SmallBudgets` | src/CampagnesManager.cpp:277-302 | However much they have together, the truncated total is 0 if and only if each campaign has less than 1 left, and then every draw goes to the first |
| `Draw.Select` | src/CampagnesManager.cpp:253-303 | The weighting loop with its running share |
| `DbDispatch.DispatcherIsSound` | third-party/drogon/orm_lib/src/DbClientImpl.cc:138-335 | In every reachable state ready and busy are disjoint, a ready connection means that both queues are empty, at most 200001 commands wait, and accepted commands and requested transactions are those given to connections followed by those waiting, first come first served |
| `DbDispatch.WorkIsConserved` | third-party/drogon/orm_lib/src/DbClientImpl.cc:138-235 | Every submitted command is refused, given to a connection or waiting, exactly once |
| `DbDispatch.RefusedWhenFull` | third-party/drogon/orm_lib/src/DbClientImpl.cc:157-166 | Over every run, the commands refused are those submitted while 200001 accepted ones had not been executed, and no others |
| `DbDispatch.TransactionsFirst` | third-party/drogon/orm_lib/src/DbClientImpl.cc:295-335 | Of the transactions that wait, as many begin as connections come free, oldest first, and no command leaves the queue meanwhile, whatever else happens |
| `DbDispatch.CommandsNext` | third-party/drogon/orm_lib/src/DbClientImpl.cc:295-335 | With no transaction waiting or asked for, each connection that comes free takes the oldest command |
| `DbDispatch.NoneForgotten` | third-party/drogon/orm_lib/src/DbClientImpl.cc:240-384 | In every run each existing connection is being set up, ready or busy |
| `DbDispatch.OneLambdaPerEnd` | third-party/drogon/orm_lib/src/DbClientImpl.cc:240-258 | While a connection exists, each end of a transaction with a good status queues one step for it, and nothing else does |
| `DbDispatch.NoLambdaBehindClose` | third-party/drogon/orm_lib/src/DbClientImpl.cc:240-258 | Once a connection is removed, none is queued any more |
| `DbDispatch.WorksOnOne` | third-party/drogon/orm_lib/src/DbClientImpl.cc:240-335 | In every run: ready connections are idle and no connection is given a job while it works on another, if and only if no lambda of a finished transaction runs for a connection at work |
| `DbDispatch.CommitsAreSafe` | third-party/drogon/orm_lib/src/TransactionImpl.cc:34-85 | Without rolled back transactions no connection is ever given a second job |
| `DbDispatch.GivenBackTwice` | third-party/drogon/orm_lib/src/TransactionImpl.cc:194-265 | A run from the start: a rolled back transaction calls the used-up callback once more when its object goes, and with two commands waiting its connection is given the second while it works on the first |
| `DbDispatch.StaysLive` | third-party/drogon/orm_lib/src/DbClientImpl.cc:240-272 | In every run: only existing connections are ready, busy or given work, if and only if neither a lambda of a finished transaction nor the idle callback of a command runs for a connection closed before it |
| `DbDispatch.LateCommandWasHanded` | third-party/drogon/orm_lib/src/postgresql_impl/PgConnection.h:44-82 | The first such idle callback is that of a command handed over from another thread before the close |
| `DbDispatch.FailedCommandReturns` | third-party/drogon/orm_lib/src/postgresql_impl/PgConnection.cc:205-224 | A run from the start: a command is handed over, its connection closes first, the command fails there, and the closed connection is ready again |
| `DbDispatch.ClosedConnectionReturns` | third-party/drogon/orm_lib/src/DbClientImpl.cc:246-272 | A run from the start: a transaction ends, its connection closes, comes back as ready and is given the next command |
| `DbClient.DbClientImpl.ExecSqlCmd` | third-party/drogon/orm_lib/src/DbClientImpl.cc:138-210 | Gives the command to a ready connection, queues it, or refuses it exactly when 200001 accepted ones wait; the invariant of the dispatcher is kept |
| `DbClient.DbClientImpl.NewTransactionAsync` | third-party/drogon/orm_lib/src/DbClientImpl.cc:211-235 | Takes a ready connection or queues; the invariant is kept |
| `DbClient.DbClientImpl.NewTask` | third-party/drogon/orm_lib/src/DbClientImpl.cc:295-335 | A connection gets the oldest transaction, else the oldest command, else it becomes ready; the invariant is kept |
| `DbClient.DbClientImpl.OnOk` | third-party/drogon/orm_lib/src/DbClientImpl.cc:395-406 | The ok callback in its two sections |
| `DbClient.DbClientImpl.OnUsedUp` | third-party/drogon/orm_lib/src/DbClientImpl.cc:240-258 | The end of a transaction: queues the next step exactly when the status is not bad and the connection still exists |
| `DbClient.DbClientImpl.OnDestroyed` | third-party/drogon/orm_lib/src/TransactionImpl.cc:76-84 | The object of a rolled back transaction goes, and the same happens once more |
| `DbClient.DbClientImpl.OnClose` | third-party/drogon/orm_lib/src/DbClientImpl.cc:371-384 | A closed connection leaves all three sets; what its loop has not taken up stays on its way |

## Left out

- Sockets, event loops, timers, DNS, TLS, logging, JSON, compression, hashing, random sources: inputs or events.
- Floating point: budgets, prices and ratios are exact numbers, so rounding of a ratio or of a budget is not modelled.
- The draw with a truncated total of 0: its quotients are infinite or undefined in the source; the model takes the first campaign, as IEEE comparison makes the loop do.
- Numbers with signs and numbers too large for their type, in content-length, chunk sizes, status codes and frame lengths near 2^64.
- A malformed content-length is an exception in the source; the model ends the connection without a status code.
- `parseParameters` reads one byte past an input that is skipped entirely; the model stops there.
- Multipart bodies, pass-through requests and responses, and files as response bodies in the renderer (the pipelining model has files as wire items).
- WebSocket handshakes and the first request of a connection.
- The pool of request objects; a reset request is modelled as a new one.
- Null responses do nothing, and a response object shared between requests is not modelled.
- A callback for an earlier request of the same batch that fires inside a later iteration: it would write to a flag that is gone.
- The client's bad-address and name-resolution branches, its cookie jar, and decompression of responses.
- Control frames between the fragments of a message; the parser would overwrite its kind and mix the payloads.
- The hex codecs, uuid and date helpers of the utilities: inverses of the same easy kind as the codecs shown.
- The array parser of the database layer: it keeps the escape character instead of the escaped one, so no quoting round trip holds.
- Inside a transaction: TransactionImpl is one job that ends with its used-up callback, once or, rolled back, twice. libpq's batch mode.
- What a connection does with a second job that it is given: the source asserts that there is none, and the model only records it.
- PrinterProofs.PrintedParses: header names are lower case and none is cookie or expect, values are trimmed and without line ends, and without a body no length or encoding is announced; the printer writes other maps unchanged and the parser then reads something else.
- ResponseRoundTrip.RenderedParses: header names are lower case and the length is left to the framework, as in responses built through its interface.
- EndToEnd.CallbacksGetTheirResponses: the wire is made of items, which UserBytes takes down to bytes; an error that the server's parser reports is a broken connection, and the status line in front of the break is ParserReplies' subject.
- PipelineClientProofs.ErrorEmptiesQueues: a connector that fails at once, inside the submission that starts it, and a TCP client dropped while it is still connecting.
- PipelineServerProofs.SelfHeadSilences: what the parser writes by itself on a silenced connection is not part of the pipeline; ParserReplies has it.
- WireBytes.BytesBothWays: responses with files sent behind their headers, and errors of the parser.
- UserBytes.UserGetsTheBytes: the same, and responses read on connections that broke meanwhile are covered at the time they were up.
- BodyStore.ReadTooEarly: no caller in the repository looks at a body before it is complete; this is about the class by itself.
- LostRequests.HandedOver: after a read that only starves, requests further on in the stream are not counted as lost.
- HttpResponseParser.ResponseReader.ProcessResponseLine: a status line without a blank, or that starts with one, is refused; the source looks outside of it.
- HttpResponseParser.ResponseReader.AddHeaderLine: the value of a Set-Cookie line is kept whole, not parsed into attributes.
- PrinterProofs.CookiesComeBack: names and values without separators, blanks at their ends or line ends.
- WebSocketProofs.StreamArrives: control frames within a fragmented message, and endpoints that have already sent a close, are not covered.
- CampagnesManager.Manager.SelectCampagne: one thread without interference; interleavings are Auction's.
