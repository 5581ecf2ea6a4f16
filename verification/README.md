# A verified model of the SSE broadcast servers

The repository implements one small service several times over: clients subscribe
to a server-sent event stream, a message is posted, and every subscriber gets it.
This project models the implementations that hold hard cores and proves what they
promise: the C++ server (its lock-free client lists and its HTTP request
assembly), the Go broker, the Twisted and Node servers, the request loop of the
Nim server, and the thread cursor of the C server.

`dafny verify dfyconfig.toml` checks all of it.

## How it is organised

- `Sequences`, `Text`: facts about sequences; the character and number operations of the libraries the servers use,
  and what they compute in terms of the alphabet and the digits.
- `EventStream`: the interpreter of sections 9.2.5 and 9.2.6 of the HTML Standard, as a function of the whole
  stream and as a reader of chunks; the two agree however the stream is cut. `Framing`: single-line and
  multi-line framing, and exactly when decoding gives back what was sent. `StandardExamples`: the examples of that
  standard, and the meaning of its fields.
- `Registry` and `Registry*`: the C++ client registry as a step machine. Every load, compare-and-swap, write of
  `next` and counter update is one step; any number of registrations interleave with one broadcast; the weak
  CAS may fail spuriously. `RegistryRuns` has the theorems over all runs, the other files the invariants
  they rest on. `RegistryProgress`: what a registration and a broadcast can always still do. `RegistryRotation`:
  which bucket a registration gets. `RegistryEndToEnd`: from a broadcast to the events a browser dispatches.
- `SinglyList`, `SseServer`: the same list and server on the heap, with in-place pointer updates.
- `HttpScanner`, `HttpAssembly`, `HttpHandler`: parsing, its inverse, the limits of the header read, and the
  connection as a class whose methods are tied to those functions. `HttpReplies`: the five requests that the server
  answers, and what it refuses.
- `GoBroker`: one publisher, bounded channels with blocking sends, subscribers that join, drain and leave.
- `PythonSse`: the Twisted server. `NodeTable`, `NodePost`, `NodeRequests`: the Node server's clients, its POSTs, and
  its answer to any request. `NimRequests`, `NimPipeline`, `NimReplies`, `NimPersistence`, `NimServer`: the Nim loop on
  pipelined requests, its refusals, its decision about the connection. `Rotation`: the thread cursor of the C server.

Where a property is not true of the code, the code is kept and the exact condition under which it holds is
proved:

- A message survives single-line framing if and only if it has no CR and no LF (`Framing.FaithfulIffClean`).
- A C++ header line without a colon ends the header block, so the body is found where the empty line is if and
  only if every header line has a colon (`HttpScanner.BlockEndsRightIffColons`).
- A C++ header block reaches the parser under every chunking if and only if it ends by byte 2048, and under some
  chunking if and only if it ends by byte 2303 (`HttpAssembly.ParsedUnderEveryCutIff`, `ParsedUnderSomeCutIff`).
- The C++ body callback is not cut at Content-Length, so a sender of more bytes is cut exactly if the header
  reads took in no more than the declared length (`HttpAssembly.ExactBodyIff`). Every chunking gives exactly the n
  declared bytes if and only if no more are sent or n is at least 255 (`HttpAssembly.ExactBodyUnderEveryCutIff`).
- The C++ parser stays inside its buffer if and only if a line feed follows the second space, when there is one
  (`HttpScanner.PastEndIff`). A request is answered with defined behaviour under the same condition
  (`HttpAssembly.UndefinedIff`); a receivable one that is not is `HttpAssembly.UndefinedReached`. Two spaces before
  the blank line are enough for a defined answer that is not a 400 (`HttpAssembly.TwoSpacesAreServed`).
- The C++ bucket counter is read and incremented in two steps, so a registration gets the bucket whose turn it
  is if and only if the number of registrations caught between the two is a multiple of the number of buckets
  (`RegistryRotation.TurnKeptIff`). Throughout a run every bucket has its fair share if and only if that is so for
  each registration of the run (`RegistryRotation.FairIffInTurn`); `RegistryRotation.Overlap` is a run where it is not.
- The Node server looks for the line feed of the request line in a chunk, but slices the whole buffer. A subscriber's
  request gets its stream if and only if the line feed begins its chunk, or no more came before that chunk than the
  protocol version and one character (`NodeRequests.SubscribedIff`); `NodeRequests.CutLineMissed` is a cutting under
  which it does not.
- A Node POST is handled if and only if no line feed of the chunk with the first one stands at its positions one to
  four and some chunk ends where the declared body ends (`NodeRequests.AnyPostHandledIff`).
- The count served by Node is right if and only if no client's end callback ran twice (`NodeTable.CounterRightIff`).
- The Nim server keeps a connection as section 6.3 of RFC 7230 requires, for the options of all the Connection lines
  of a request, if and only if `NimPersistence.AgreesOn` holds of the request (`NimPersistence.KeepsByRfcIff`). A list
  of options is missed (`ListMissed`), and so is a close on any line but the last (`FirstCloseMissed`).
- The Nim loop takes a request whole, and goes on behind it, if and only if that is a POST or has no body
  (`NimPipeline.TurnUndoesPrintIff`); the body of a PUT is taken for the next request (`NimPipeline.PutBodyMissed`).
- A Nim pipeline is served whole and in order, up to the request where section 6.3 ends it, if and only if `AgreesOn`
  holds of every served request that another follows and the served requests with a body are POSTs
  (`NimPersistence.PipelineByRfcIff`).
- A C++ broadcast leaves a dead client linked if and only if it is in front of all live ones of its list and the
  head CAS of its removal fails spuriously (`SseServer.MissesIff`).
- A Twisted subscriber reads exactly the bodies posted while it was subscribed if and only if none of them is empty,
  contains a CR or ends in LF (`PythonSse.SubscriberReadsExactlyIff`).
- The Go publisher can publish another message if and only if it is not sending to a full channel whose reader has
  left (`GoBroker.PublishesAgainIff`). A run reaches such a state (`GoBroker.StuckIsReached`), and every continuation
  stays in it (`GoBroker.StuckForever`).

## Model

| member | source | states |
|---|---|---|
| RegistryRuns.InvAlways | c++/singlylist.hpp:27-77 | Every state of every interleaving satisfies the invariant of the lists, the locks, the collected nodes, the logs and the count. |
| RegistryRuns.ListsAreExact | c++/singlylist.hpp:27-73 | In every reachable state a bucket's chain from its head is finite, unique and free of repetition and holds exactly what was pushed minus what was removed, newest first; nothing null or freed is dereferenced. |
| RegistryRuns.LogsAreSlices | c++/sse_server.cpp:6-20 | What is handed to a client's send is a contiguous slice of the broadcast history from the first broadcast that loaded its head after the push; what is written is a prefix of it, all of it while the client lives; only dead clients are unlinked. |
| RegistryRuns.LiveClientsMissNothing | c++/sse_server.cpp:6-20 | With no broadcast in flight, a linked client that is not dead has been written every message since its push. |
| RegistryRuns.ServedExactlyOnce | c++/sse_server.cpp:11-20 | A broadcast hands its message exactly once to each node of the list it loaded that it found alive, and not at all to later pushes or to the collected ones, which are dead. |
| RegistryRuns.CountIsExact | c++/sse_server.cpp:21-26 | The client count is the number of linked nodes, less the pushed but uncounted, plus the unlinked but unsubtracted; with nothing mid-step it is the number of linked nodes. |
| RegistryRuns.SweepIsFilter | c++/sse_server.cpp:8-26 | After a broadcast each list is the nodes pushed since its head was loaded, then the list as loaded without the swept nodes, in order. |
| RegistryRuns.RemoveIsHonest | c++/singlylist.hpp:47-73 | remove returns true exactly if its call has unlinked the node, false exactly after a spurious CAS failure; the nodes of later tuples are still linked. |
| RegistryRuns.SteadyMissesNothing | c++/singlylist.hpp:53-57 | If no head CAS of remove fails spuriously, no collected node is missed, so the sweep removes all of them. |
| RegistryRuns.RunsGrow | c++/sse_client.cpp:3-19 | The dead flag never clears, removed nodes stay removed, logs only grow, and a dead client is written no more. |
| RegistryProgress.PushSucceeds | c++/singlylist.hpp:27-44 | From every state with the invariant a registration that is left alone, whatever head it has loaded, gets its node to the front of its bucket's list and is counted, after exactly the steps it has to go: one more CAS and link if the head has moved. Nothing else in the lists changes. |
| RegistryProgress.BroadcastEnds | c++/sse_server.cpp:11-26 | From every state with the invariant the steps of a broadcast in flight are never blocked and come to their end, whichever CASes fail spuriously. |
| RegistryProgress.BroadcastAlone | c++/sse_server.cpp:6-27 | A broadcast that nothing interferes with refines one simple step: every list without its dead nodes, the message once to every other linked client and to nobody else, the count less the nodes unlinked. |
| RegistryProgress.GoneClientIsUnlinked | c++/sse_client.cpp:12-18 | A client that has been written to can be found dead, and the next broadcast alone takes it out of every list. |
| RegistryRotation.CounterIsExact | c++/sse_server.cpp:76-77 | The bucket counter is the number of registrations past their increment. |
| RegistryRotation.TurnKeptIff | c++/sse_server.cpp:76-78 | A registration gets the bucket whose turn it is if and only if the registrations between read and increment are a multiple of the bucket count. |
| RegistryRotation.FairIffInTurn | c++/sse_server.cpp:75-80 | In every state of a run each bucket b of n has been given ceil((k - b) / n) of the k registrations if and only if each registration of the run reads the counter while a multiple of n others are between their read and their increment. |
| RegistryRotation.FairWithoutOverlap | c++/sse_server.cpp:76-78 | If every registration gets its turn, no two buckets differ by more than one, and bucket b of n has been given ceil((k - b) / n) of k, none before its first. |
| RegistryRotation.Overlap | c++/sse_server.cpp:76-77 | Two overlapping callbacks both get the first bucket, whatever the number of buckets. |
| RegistryEndToEnd.ClientReadsItsSliceIff | c++/sse_server.cpp:6-20 | However it is cut, a client's stream is read as the messages of one contiguous slice of the history if and only if none of them contains a line break; the slice reaches the last message for a live client with no broadcast in flight. |
| SinglyList.SinglyList.CompareExchangeWeak | c++/singlylist.hpp:41-43 | Succeeds only on the expected head, may fail spuriously, and reports the head it saw. |
| SinglyList.SinglyList.Push | c++/singlylist.hpp:27-44 | Whatever others push and remove between its attempts and however often these fail spuriously, the list is the new node on top of what the others have left of it, which is the old nodes themselves if they did nothing. |
| SinglyList.SinglyList.Unlink | c++/singlylist.hpp:59-72 | Whatever others push during the search, it unlinks the node exactly if that is behind the first one looked at, and leaves every other node in its order below the newly pushed ones. |
| SinglyList.SinglyList.Remove | c++/singlylist.hpp:47-73 | On a non-empty list, with pushes of others before the head CAS and during the search, returns true exactly if the node was linked and its removal was not the spurious failure of an uncontended head CAS; then exactly that node is gone from below the pushed ones, otherwise nothing is. |
| SinglyList.SinglyList.GetFront | c++/singlylist.hpp:76-78 | The newest node, or null for an empty list. |
| SseServer.SseClient.WriteCompleted | c++/sse_client.cpp:12-18 | A completed write makes the client dead if and only if it ended with one of the three disconnect errors; a dead client stays dead. |
| SseServer.SseClient.Send | c++/sse_client.cpp:7-19 | A dead client is written nothing, a live one the message. |
| SseServer.SseServer.Walk | c++/sse_server.cpp:12-19 | The walk over a bucket collects its dead nodes in order and gives every other client the message once. |
| SseServer.SweepIsFilter | c++/sse_server.cpp:21-26 | Sweeping what the walk collected leaves every list without its dead nodes, order kept, except for at most one whose head CAS failed; every collected node is linked until its own removal. |
| SseServer.MissesIff | c++/singlylist.hpp:50-58 | A list keeps a dead node if and only if the head CAS fails for one that has only dead nodes in front. |
| SseServer.SweptLength | c++/sse_server.cpp:24 | The sweep takes away one node per tuple whose removal does not miss. |
| SseServer.SseServer.SweepTuple | c++/sse_server.cpp:21-26 | One removal unlinks the tuple's node and lowers the count, or does neither if the node is the head and its CAS fails spuriously; every other list is as it was. |
| SseServer.SseServer.Broadcast | c++/sse_server.cpp:6-27 | Whichever head CASes fail spuriously, every live linked client is given the framed message once, the dead ones nothing; the lists are filtered, the count stays their total length, and no client outside the lists is touched. |
| SseServer.SseServer.constructor | c++/sse_server.hpp:15-25 | As many empty buckets as asked for. |
| SseServer.SseServer.Register | c++/sse_server.cpp:75-80 | The client becomes the newest node of bucket counter modulo buckets; counter and count go up by one. |
| Rotation.TurnsAreCeilings | c++/sse_server.cpp:76-78 | Of k turns over n slots, slot i gets ceil((k - i) / n), none before its first. |
| Rotation.TurnsAreFair | c/server.c:230 | No slot is more than one turn ahead of another. |
| Rotation.MainThread.HandOff | c/server.c:218-230 | The wrap-to-zero cursor, which advances only after a successful add, is the number of added clients modulo the threads, and each thread has had its turns. |
| Text.ToUpperIff | c++/http_handler.cpp:52 | Upper case is the one text that differs at most in the case of the 26 letters and has no small one. |
| Text.ToLowerIff | c++/http_handler.cpp:70 | Lower case is the one text that differs at most in the case of the 26 letters and has no capital one. |
| Text.SameTextIff | c++/http_handler.cpp:52-70 | Two texts are the same in upper, and in lower, case if and only if they differ in the case of letters only. |
| Text.StoiReads | c++/http_handler.cpp:151 | A number is read behind white space and a sign up to the first character that is no digit, if it fits an int; without a digit nothing is read. |
| HttpScanner.ParseUndoesPrint | c++/http_handler.cpp:46-109 | For every method, path and list of well-formed headers and any body: the upper-cased method, the path, the header map, and a body offset equal to the length of the head. |
| HttpScanner.OffsetIsFirstBlank | c++/http_handler.cpp:23 | That offset is four behind the first blank line the header loop looks for. |
| HttpScanner.LastHeaderWins | c++/http_handler.cpp:80-84 | The map holds exactly the lower-cased names, each with its last value and the carriage return that ended it. |
| HttpScanner.PastEndIff | c++/http_handler.cpp:58-66 | The parser runs past the end of the buffer if and only if no line feed follows its second space. |
| HttpScanner.PastEndReached | c++/http_handler.cpp:53-66 | A witness that holds the blank line and is parsed past its end. |
| HttpScanner.TwoSpacesParse | c++/http_handler.cpp:46-109 | With two spaces before a blank line at e the buffer is parsed as a request whose body offset is assigned and at most e + 4. |
| HttpScanner.BlockEndsRightIffColons | c++/http_handler.cpp:90-103 | On a block of lines ended by an empty one the body is found behind that line if and only if every line has a colon; otherwise too early. |
| HttpScanner.ScanByLines | c++/http_handler.cpp:65-105 | The scan of any block is what its lines mean: names, values behind their spaces, and where it ends. |
| HttpScanner.TextHasLines | c++/http_handler.cpp:65-105 | Every text is such a block of lines. |
| HttpScanner.ByLinesIff | c++/http_handler.cpp:65-105 | A block ends at a line without a colon if there is one; otherwise it is broken if its unfinished line has a colon, and open if not. |
| HttpScanner.ParseByLines | c++/http_handler.cpp:46-109 | Any buffer with two spaces and a line feed behind them parses to its upper-case method, its path and what its lines mean. |
| HttpScanner.NoSecondSpace | c++/http_handler.cpp:47-54 | A buffer without a second space is invalid. |
| HttpAssembly.ParsingHasTheBlank | c++/http_handler.cpp:15-28 | Parsing begins with a prefix of the stream of at most 2303 bytes that holds the first blank line. |
| HttpAssembly.ParsedUnderEveryCutIff | c++/http_handler.cpp:21-25 | A header block is parsed under every chunking into 1 to 256 bytes if and only if it ends by byte 2048. |
| HttpAssembly.ParsedUnderSomeCutIff | c++/http_handler.hpp:34-39 | It is parsed under some chunking if and only if it ends by byte 2303. |
| HttpAssembly.EveryCutGivesTheBody | c++/http_handler.cpp:148-178 | Under every chunking of a well-formed request whose head ends by byte 2048 and whose body has the declared length, at most 65536, the same key is looked up and its handler is given exactly the body. |
| HttpAssembly.ExactBodyIff | c++/http_handler.cpp:169-175 | When more is sent, the handler is given exactly the declared length if and only if the header reads took in no more. |
| HttpAssembly.ExactBodyUnderEveryCutIff | c++/http_handler.cpp:164-178 | When at least the n declared bytes are sent behind a head that ends by byte 2048, every chunking gives the handler exactly n of them if and only if exactly n are sent or n is at least 255. |
| HttpAssembly.UndefinedIff | c++/http_handler.cpp:115-178 | For handler keys without a line feed, as all of the server's are (`HttpAssembly.ServerKeysArePlain`), the reply to a buffer with a blank line is undefined behaviour if and only if the parser runs past its end: an unassigned or too large body offset never makes it so by itself. |
| HttpAssembly.TwoSpacesAreServed | c++/http_handler.cpp:115-178 | With two spaces before the first blank line the reply is neither undefined nor a 400 for a malformed request. |
| HttpAssembly.UndefinedReached | c++/http_handler.cpp:15-28 | A witness of eleven bytes that, read at once, is parsed and answered with undefined behaviour. |
| HttpAssembly.LengthLimitsIff | c++/http_handler.cpp:150-161 | A declared length is refused if and only if it is above 65536 and fits an int, and is the end of the program if and only if it does not fit. |
| HttpAssembly.NoLengthNoBody | c++/http_handler.cpp:165-168 | Without a Content-Length the body is empty, whatever was sent. |
| HttpReplies.ServerAnswers | c++/sse_server.cpp:46-120 | Under every chunking, and in whatever case the method and the header names are written, a well-formed request whose head ends by byte 2048 and whose body is declared gets its answer: the five keys of the server are handled, "POST /broadcast" with exactly the body, and every other request is not found. |
| HttpReplies.AnswerWithoutLength | c++/http_handler.cpp:164-168 | Without a Content-Length, under every chunking, the handler of the key is given no byte that follows the head. |
| HttpReplies.StalledIff | c++/http_handler.cpp:30-44 | A broadcast that sends fewer bytes than it declares is never answered, and one that sends enough is handled, under every chunking. |
| HttpReplies.LengthFound | c++/http_handler.cpp:70-106 | The last header called Content-Length in any case gives the length, and none is found if and only if there is none. |
| HttpReplies.AnyLengthIff | c++/http_handler.cpp:149-162 | Whatever is given as length: the program ends if and only if no digit follows the white space and the sign or the number does not fit an int; the request is refused if and only if it fits and is negative or above 65536. |
| HttpReplies.NoSecondSpaceIsBad | c++/http_handler.cpp:115-130 | A buffer without a second space is answered with a 400. |
| HttpReplies.CutShortIff | c++/http_handler.cpp:115-130 | One with a complete request line is answered with a 400 if and only if all its lines have colons and it ends in the middle of a header. |
| HttpHandler.HttpHandler.ParseHeaders | c++/http_handler.cpp:65-105 | The nested loops over the header lines compute the scan, and set the body offset exactly when it closes. |
| HttpHandler.HttpHandler.ParseRequest | c++/http_handler.cpp:46-109 | The loops of the parser compute the parse of the buffer, and set offset and body flag accordingly. |
| HttpHandler.HttpHandler.DoReadBody | c++/http_handler.cpp:30-44 | Appends exactly the remaining bytes and reads none beyond them, or the data ends; the remaining size decreases. |
| HttpHandler.HttpHandler.DoHandleRequest | c++/http_handler.cpp:115-179 | The reply to the buffer and to what is still to come, error replies included. |
| HttpHandler.HttpHandler.DoReadHeader | c++/http_handler.cpp:15-28 | The outcome of the header phase on the reads made; at most 2303 bytes are buffered, and 2048 minus the buffered bytes decreases. |
| HttpHandler.HttpHandler.Start | c++/http_handler.cpp:10-13 | Whatever the pieces in which the stream arrives, the reply is the outcome of some cutting of it into reads of 1 to 256 bytes. |
| GoBroker.InvAlways | go/server.go:88-110 | Every state of every interleaving of the publisher with joining, draining and leaving subscribers satisfies the invariant. |
| GoBroker.SubscribersGetSlices | go/server.go:45-56 | What a subscriber received followed by what its channel holds is a contiguous slice of the published messages, from the next one or, if one was in progress, from that one; the channel holds at most 50. |
| GoBroker.LagIsBounded | go/server.go:106-110 | The publisher is at most 51 messages past a live subscriber, so two of them are at most 51 apart. |
| GoBroker.IdleMeansDelivered | go/server.go:106-110 | With the publisher idle every live subscriber has been given every message since its start. |
| GoBroker.ClientReadsSlice | go/server.go:36-53 | However its stream is cut, a client's events are the slice it has received. |
| GoBroker.ClientReadsClock | go/server.go:76-83 | A client reads the clock readings of one stretch of the publications as numerals without leading zeros, each once and in order. |
| GoBroker.QueueCanBeTaken | go/server.go:48-54 | A live subscriber can take everything that is queued for it, down to the last message, one receive for each; it is then written all of it and nothing else has changed. |
| GoBroker.IdleCanBeRead | go/server.go:48-54 | With the publisher idle, a live subscriber that has taken its queue has been written, and its client reads, every message since its start. |
| GoBroker.CanLeave | go/server.go:49-51 | A live subscriber can leave at any moment, and only it is then gone; the publisher is not disturbed. |
| GoBroker.NothingAfterLeaving | go/server.go:98-100 | Once it has left, and is not the one being sent to, its channel never changes again, whatever runs. |
| GoBroker.EarlyIsReached | go/server.go:106-110 | A run in which a subscriber that joins during a Publish is sent that message. |
| GoBroker.LateIsReached | go/server.go:106-110 | A run in which it is not. |
| GoBroker.StuckForever | go/server.go:98-110 | A publisher blocked on a full channel whose reader has left never sends or publishes again. |
| GoBroker.PublishesAgainIff | go/server.go:106-110 | From any state with the invariant some continuation publishes a further message if and only if the publisher is not sending to a full channel whose reader has left. |
| GoBroker.StuckIsReached | go/server.go:45-56 | A run from the start in which a reader takes nothing of fifty messages, leaves while the next is sent, and the publisher is stuck. |
| Framing.CleanStreamDecodes | node.js/server.js:163-184 | The greeting and the frames of messages without line breaks decode to exactly those messages. |
| Framing.FaithfulIffClean | node.js/server.js:184 | For any messages, decoding gives them back if and only if none has a line break. |
| Framing.LineBreakLosesText | node.js/server.js:184 | A witness: the message of an a, a line feed and a b is not given back. |
| Framing.CleanChunksDecode | node.js/server.js:180-187 | The same, read chunk by chunk under any chunking. |
| Framing.LinesStreamDecodes | python-twisted/sse.py:60-66 | For messages given as lines, any chunking of the greeting and the frames dispatches one event per message with a line, its data the lines joined by line feeds. |
| PythonSse.JoinIsNormalised | python-twisted/sse.py:109 | The data of a body's event is the body with every line break made a line feed and a final one dropped. |
| PythonSse.DataIsBodyIff | python-twisted/sse.py:109 | It is the body itself if and only if that has no CR and does not end in LF. |
| PythonSse.SubscriberReads | python-twisted/sse.py:81-112 | However its stream is cut, the events of a subscriber to these bodies are one per non-empty body, in order. |
| PythonSse.MembersAreThere | python-twisted/sse.py:53-79 | In every history a subscriber is in the set from its joining until its removal. |
| PythonSse.LogsAreHeard | python-twisted/sse.py:60-66 | A subscriber's bytes are the greeting and one frame per body posted between its joining and its removal, in order. |
| PythonSse.HeardIsSlice | python-twisted/sse.py:60-70 | These bodies are a contiguous slice of the posts, up to the last one for a subscriber still there. |
| PythonSse.SubscriberReadsWhatItHeard | python-twisted/sse.py:60-112 | In every history and however its stream is cut, a subscriber reads one event per non-empty body it heard, in order, with the normalised body as data. |
| PythonSse.SubscriberReadsExactlyIff | python-twisted/sse.py:60-112 | It reads exactly the bodies it heard if and only if none of them is empty, contains a CR or ends in LF. |
| PythonSse.Subscribe.RenderGet | python-twisted/sse.py:72-83 | The subscriber is added and its log is the greeting, as the join of a history. |
| PythonSse.Subscribe.Remove | python-twisted/sse.py:68-70 | Only that subscriber goes, and an absent one changes nothing, as the removal of a history. |
| PythonSse.Subscribe.PublishToAll | python-twisted/sse.py:60-66 | Every subscriber is written the frame of the lines once. |
| PythonSse.Subscribe.RenderPost | python-twisted/sse.py:101-114 | Every subscriber is published the lines of the body, and no other, as the post of a history. |
| NodeTable.SlotsAreLive | node.js/server.js:165-178 | In every history a captured index points to its own live client until its callback runs, and to null ever after. |
| NodeTable.LogsAreHeard | node.js/server.js:180-187 | A client's bytes are the greeting and one frame per message broadcast between its registration and its removal, in order. |
| NodeTable.HeardIsSlice | node.js/server.js:180-187 | These messages are a contiguous slice of the broadcasts, up to the last one for a client still there. |
| NodeTable.CounterIs | node.js/server.js:165-174 | The counter is the number of live slots minus the callbacks run for a slot already null. |
| NodeTable.CounterRightIff | node.js/server.js:172-173 | It is the number of live slots if and only if no callback ran twice. |
| NodeTable.ClientReadsWhatItHeardIff | node.js/server.js:153-187 | However it is cut, a client's stream is read as exactly what it heard if and only if that has no line break. |
| NodeTable.ClientTable.InitSseClient | node.js/server.js:163-166 | The client gets the next index, a live slot and the greeting. |
| NodeTable.ClientTable.RemoveClient | node.js/server.js:170-175 | The slot becomes null and the counter falls by one; no index moves. |
| NodeTable.ClientTable.Broadcast | node.js/server.js:180-187 | Counting down through the array, every live client is written the frame once and no other is. |
| NodePost.DeclaredLength | node.js/server.js:88 | The pattern reads a Content-Length line of any case, spacing and place as its number, unless it fits somewhere before. |
| NodePost.NoMatchIff | node.js/server.js:88 | No length is found if and only if the pattern fits nowhere. |
| NodePost.FitsIff | node.js/server.js:88 | The pattern matches at a place if and only if it fits there, and gives the digits it fits with. |
| NodePost.PrefixDecides | node.js/server.js:81-104 | Body offset and length are stable under append: what a prefix of the stream is taken for depends on its length alone. |
| NodePost.PostFromStart | node.js/server.js:33-50 | Once a first chunk holds the request line of a POST, every chunk only extends the buffer. |
| NodePost.PostHandledIff | node.js/server.js:80-106 | A POST is handled at most once, and is handled, with exactly its body, if and only if a chunk ends where the declared body ends. |
| NodePost.NoLengthIsRefused | node.js/server.js:91-95 | Without a length the answer is 411, once and last, and nothing is handled. |
| NodePost.FirstDeclaredLength | node.js/server.js:88 | In a printed head the length found is the number of a Content-Length header if the pattern fits nowhere before that line. |
| NodePost.ExactPostBroadcasts | node.js/server.js:62-106 | A stream that is exactly a broadcast request, whose first fitting header declares the length of its body, and that body, publishes the body exactly once, under any chunking. |
| NodePost.Connection.ParseData | node.js/server.js:30-54 | The data event does what the functional description of one event says. |
| NodeRequests.RequestTaken | node.js/server.js:35-49 | Under every chunking a request that is not a POST is waited for up to the chunk with its first line feed and then answered once, by its method and path as far as the slice has taken them. |
| NodeRequests.WholeRequestAnswered | node.js/server.js:62-78 | A request that is taken whole is answered by its method and path: OPTIONS with the CORS head, "/connections" with the count, "/sse" with the stream, any other path as not found, an empty method or path as a client error; what follows its line does not matter. |
| NodeRequests.FirstChunkTaken | node.js/server.js:35-41 | A request whose line is in the first chunk is taken whole. |
| NodeRequests.SubscribedIff | node.js/server.js:40-46 | A GET of "/sse" is subscribed if and only if its line feed begins its chunk or no more came before that chunk than the protocol version and one character. |
| NodeRequests.CountedIff | node.js/server.js:40-46 | The same for a GET of "/connections" and the count. |
| NodeRequests.CutLineMissed | node.js/server.js:40 | A witness: a subscriber whose line is cut in two is answered as a client error. |
| NodeRequests.PostTakenIff | node.js/server.js:35-53 | A stream that begins with POST is read as one if the chunk with the first line feed has none at its positions one to four; otherwise it is answered as a client error. |
| NodeRequests.AnyPostHandledIff | node.js/server.js:80-106 | Under every chunking a POST is handled, once and with exactly its body, if and only if it is read as one and some chunk ends where the declared body ends. |
| NodeRequests.CompletePostAnswered | node.js/server.js:62-106 | A complete POST is answered once, by its path: "/broadcast" with the publication of exactly its body, the others as any request. |
| NimPipeline.HeadersRead | nim/server.nim:76-160 | Reading header lines undoes printing them: lower-cased names, last values, and the rest of the stream. |
| NimPipeline.LastValueWins | nim/server.nim:160 | The last header of a name decides. |
| NimPipeline.VersionParsed | nim/server.nim:110-118 | Parsing a printed protocol gives its two numbers, whatever their size. |
| NimPipeline.NormalizeIff | nim/server.nim:171-193 | normalize compares texts in any case, underscores left out. |
| NimPipeline.CallbackIff | nim/server.nim:192-196 | A request is handed to the callback, once, if and only if its method is GET, POST, HEAD, PUT, DELETE, TRACE, OPTIONS, CONNECT or PATCH, in any case and with any underscores; any other gets a 400 and nothing else. |
| NimPipeline.TurnOfAny | nim/server.nim:126-210 | One round of the loop on a request of any method. |
| NimPipeline.TurnOfPrinted | nim/server.nim:126-210 | One round of the loop on any well-formed request: the callback is given the request, without its body unless it is a POST, and such a body stays in front of what follows. |
| NimPipeline.TurnUndoesPrintIff | nim/server.nim:126-210 | The round gives the callback exactly the request and leaves exactly what follows it, or closes, if and only if the request is a POST or has no body. |
| NimPipeline.PutBodyMissed | nim/server.nim:171-190 | A witness: a PUT whose body is left in the stream. |
| NimPipeline.PipelineKeptIff | nim/server.nim:126-210 | Requests back to back that keep the connection are handled in order, and the loop goes on with what follows, if and only if those with a body are POSTs. |
| NimPipeline.PipelineEndsIff | nim/server.nim:198-210 | The first request that does not keep the connection is the last handled, and the connection is closed, if and only if the requests up to it that have a body are POSTs. |
| NimPipeline.OneCallEach | nim/server.nim:192-194 | The callback is invoked once per handled request, in order, with the same method, path, version, headers and body. |
| NimReplies.TableGives | nim/server.nim:160-189 | A header is found by its name in any case, with its last value, and not at all if it is absent. |
| NimReplies.ExpectationMet | nim/server.nim:171-177 | A POST that expects 100-continue, in any case, is told to continue, one that expects anything else that this failed; both are handled all the same. |
| NimReplies.OtherProtocolRefused | nim/server.nim:110-169 | A protocol that does not begin with HTTP/ in some case gets a 400, and the loop goes on behind the head. |
| NimReplies.ProtocolRead | nim/server.nim:110-118 | One that does is read as its two numbers, whatever character separates them. |
| NimReplies.ProtocolCutShort | nim/server.nim:110-118 | A protocol that ends with its first number is read beyond its end. |
| NimReplies.NoLengthRefused | nim/server.nim:181-190 | A POST without a Content-Length gets a 400, and the loop goes on behind the head. |
| NimReplies.BadLengthHandedOn | nim/server.nim:181-210 | A POST whose length is no number gets a 400 and is handed to the callback all the same, without a body. |
| NimReplies.ShortPostFails | nim/server.nim:186-187 | A POST fails if and only if fewer bytes follow than it declares, or it declares a negative number. |
| NimReplies.OddLineRefused | nim/server.nim:140-143 | A line without exactly two spaces gets a 400 by itself, and the loop goes on with the next line. |
| NimReplies.EmptyLineRefused | nim/server.nim:136-143 | So does an empty line. |
| NimReplies.LeftInLine | nim/server.nim:136-139 | A client that leaves before its line is complete gets nothing. |
| NimReplies.LeftInHeaders | nim/server.nim:151-155 | Nor does one that leaves among its header lines. |
| NimReplies.ColonlessHeader | nim/server.nim:103-108 | A header line without a colon is read beyond its end. |
| NimReplies.AnyLineEnd | nim/server.nim:136-156 | A line may end in CRLF, in LF or in CR. |
| NimReplies.AnySpacing | nim/server.nim:103-108 | A value begins behind any white space. |
| NimReplies.UnderscoresSkipped | nim/server.nim:116-183 | Underscores behind the digits of a number do not count. |
| NimPersistence.OptionsUndoPrint | nim/server.nim:202-203 | The options that section 6.3 speaks of: reading a comma-separated list gives back its options, whatever white space is around them, in lower case. |
| NimPersistence.GivenIff | nim/server.nim:202-203 | An option is given by a list if and only if an element is it, in any case. |
| NimPersistence.PersistsByRfcIff | nim/server.nim:199-210 | For a last Connection value and options that include its own, the decision to keep the connection is that of section 6.3 of RFC 7230 exactly where Agrees holds. |
| NimPersistence.KeepsByRfcIff | nim/server.nim:160-210 | A request keeps its connection as that section says, for the options of all its Connection lines, exactly where Agrees holds of these and of the last line. |
| NimPersistence.PipelineByRfcIff | nim/server.nim:123-210 | Well-formed requests back to back are handled in order up to and with the first that section 6.3 of RFC 7230 makes the last, and the connection is then closed, if and only if the decisions agree at every served request that another follows and the served requests with a body are POSTs. |
| NimPersistence.PipelineEndsByRfc | nim/server.nim:123-210 | Where the decisions agree at every served request and one of the requests is the last by that section, what follows it, well formed or not, is never read, if and only if the requests up to it that have a body are POSTs. |
| NimPersistence.ServedByRfcIff | nim/server.nim:198-210 | The requests the loop handles are those that section allows if and only if the decisions agree at every served request that another follows. |
| NimPersistence.PlainValuesAgree | nim/server.nim:60-69 | For HTTP/1.0 and 1.1 and a value of one bare option without underscores, or none, it is. |
| NimPersistence.ListMissed | nim/server.nim:200 | A close that stands in a list of options is missed. |
| NimPersistence.FirstCloseMissed | nim/server.nim:160-210 | A close on an earlier Connection line is missed, and a second request is served behind it. |
| NimServer.AddHeaders | nim/server.nim:76-78 | Appends every header of the table as a line, in order. |
| NimServer.ReadHeaderLines | nim/server.nim:149-160 | The loop over the header lines computes the header table and leaves the rest of the stream. |
| NimServer.Round | nim/server.nim:126-210 | One round computes the turn of the stream, and closes exactly when that says so. |
| NimServer.ProcessClient | nim/server.nim:123-210 | The loop over one connection gives the events and the ending of the whole stream. |

## Left out

- Weak memory: steps are sequentially consistent, and `++` and `--` on the plain counters are atomic.
- Overlapping broadcasts in the C++ server: one broadcast is in flight at a time, because two could hold the same node in their tuples; and `remove` is called only on a non-empty list, because it follows the head unconditionally.
- Address reuse and buffer lifetime: node identities are never reused, and an asynchronous write takes its message when it is started. Overflow of the C++ bucket counter: it is unbounded.
- SinglyList.SinglyList.Remove: what others do is complete pushes (and, during Push, removals) between the steps shown; finer interleavings are in the step machine only. The release of the node's memory is its leaving the list.
- SseServer.SseServer.Broadcast: the heap version runs alone, with any head CAS of the sweep failing spuriously; interleavings are in the step machine.
- HttpHandler.HttpHandler.DoHandleRequest: replies are values, not bytes; a handler is known by its key and whether it asks for the body, and a value that `stoi` rejects, which nothing catches, is the reply Crashed.
- HttpAssembly.UndefinedIff: for bytes up to 127; where char is signed, `toupper` and `tolower` of a higher byte in the method or a header name are undefined in C, and the model leaves such a byte as it is.
- What the program does once it has left its buffer: PastEnd and Undefined are outcomes of their own, and when they occur is proved.
- Sockets, event loops and the HTTP libraries: reads are arbitrary chunks, writes are appends to a log, disconnects are events.
- Bytes and characters are the same: UTF-8 decoding in the Node server and in the event stream interpreter is not modelled, nor is the parsing of the reconnection time into a number.
- EventStream.ChunkingIsInvisible: the end of a stream drops an unfinished line and an undispatched event, as the standard says; reconnection is not modelled.
- Python: `splitlines` splits at CR, LF and CRLF, as it does for byte strings; the order in which a set is visited is arbitrary.
- GoBroker.SubscribersGetSlices: map operations are atomic steps although the source shares the map between goroutines without a lock; the clock is any sequence of numbers.
- NodePost.PostHandledIff: its line is in the first chunk, as in the other lemmas of that module; `NodeRequests.AnyPostHandledIff` is for any chunks that are not empty. Numbers beyond the exact range of a double are exact here.
- NodeTable.CounterRightIff: that 'end' is emitted at most once per socket is a promise of the library, so histories with repeated callbacks are covered too.
- NimPipeline.PipelineEndsIff: requests are complete and well formed, their bodies of a declared length (the loop knows no transfer encodings), and the callback leaves the connection open. Single malformed requests are in NimReplies; 64-bit overflow in `parseInt` is not modelled, and reading past the end of a string is an outcome of its own.
- NimServer.AddHeaders: the table is given as the sequence in which its iterator yields the entries.
- Nim: the URL is kept as the path's text; `serve` and the responses' bytes are left out.
- Response heads, status tables, CORS replies, timers, logging, argument parsing, the benchmark and the statistics reporter.
- The Ruby, Clojure, Erlang and PHP servers, and the rest of the C server: thin layers over libraries.
