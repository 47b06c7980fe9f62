# A model of myserver.cc's request pipeline

myserver.cc is a small HTTP/1.x file server. A listener thread reads each
request text into a `Request` record and calls `handleRequest`. The request
line then goes through these steps:

- `regexGuard` checks its shape against three regular expressions.
- `strtok` cuts it into method, target and version, and the target `/` becomes
  `/index.html`.
- `doesListenMore` decides from the version whether the connection is kept.
- `URIGuard` refuses `..` and anything that is not a world-readable regular file.

What follows depends on the method:

- OPTIONS, spelt exactly so, is answered at once.
- A GET, compared upper-cased, is pushed onto the global event queue.
- A HEAD, compared upper-cased, is answered with the header alone.
- Any other method is refused with an error response.

The event processor then sends each queued file a packet (`PACK_SIZ` = 1450
bytes) per turn. On every turn it serves the front request and pops it. A
request that is not finished has already pushed itself to the back of the
queue. Every response is built by `getHeader`. Every response ends by closing
the socket and counting down `connectionsOpen`, unless the connection is kept.

The project models this pipeline as one sequential program:

- `text.dfy`: the C-level string helpers the server relies on: `toupper`,
  the C-string view of a `std::string`, `strToUpper` (a method with its
  in-place loop), the decimal text a stringstream writes for an `int`, and
  `strtok`.
- `guards.dfy`: the three patterns of `regexGuard` as predicates; the guard
  as written and as intended; the tokenisation of the request line; and
  `URIGuard` with `stat`'s answer as a parameter.
- `response.dfy`: `getHeader`, the error and OPTIONS bodies,
  `contentTypeForFile`, the verdict of `doesListenMore`, and `getTimeout`.
- `transfer.dfy`: what one `respondToGET` step sends and how the steps add up
  over a whole transfer.
- `server.dfy`:
  - the `Request` record and the globals `eventQueue` and `connectionsOpen`,
    as classes whose methods update them in place;
  - `handleRequest` and the `respond*` functions;
  - one turn of `eventProcessor`'s loop;
  - the specification functions these are proved against: the route a request
    takes, and the events it causes on its socket.

Sockets are numbers. `send`, `shutdown(SHUT_RD)`, `close` and the thread
started by `continueListen` are entries appended to a log (`Server.log`).
Parameters stand for what the server asks of the outside world:

- the date text;
- `stat`'s answer for the target;
- whether the `ifstream` opens;
- the file's length;
- the file's contents on each step.

A `char` stands for one octet.

## Model

| member | source | states |
|---|---|---|
| Text.StrToUpper | myserver.cc:597-604 | strToUpper returns every character of the C string of its argument passed through the C-locale toupper; the loop invariant keeps the buffer's upper-cased prefix and untouched suffix |
| Text.UpperIdempotent | myserver.cc:597-604 | upper-casing twice equals upper-casing once and leaves no lower-case letter |
| Text.UpperCStr | myserver.cc:597-604 | toupper commutes with cutting a string at its first NUL, so strToUpper sees the same text as c_str does |
| Text.CStrIsPrefixBeforeNul | myserver.cc:265-275 | the text a C function reads from a std::string is exactly the prefix before the first NUL |
| Text.CStrAppend | myserver.cc:265-275 | a NUL-free front is kept whole in the C string of a longer text |
| Text.DecimalRoundTrip | myserver.cc:443-449 | the decimal text that `lenstr << filesize` writes reads back as the same integer, for negative sizes too |
| Text.StrTok | myserver.cc:267-275 | strtok returns NULL exactly when only delimiters remain; otherwise it returns a non-empty token free of delimiters and a resume index past it |
| Text.StrTokAt | myserver.cc:267-275 | strtok returns exactly the run of non-delimiters that begins after the leading delimiters and ends at the next delimiter or at the end |
| Guards.TerminatedRequestRejected | myserver.cc:564-594 | regexGuard as written refuses every text that holds a '\r' or '\n', because std::regex_match must match the whole text and '.' matches neither |
| Guards.ExampleRequestRejected | myserver.cc:564-594 | the request `GET /index.html HTTP/1.1\r\n\r\n` is refused by regexGuard as written |
| Guards.RequestLine | myserver.cc:564-594 | the request line is a prefix of the text, free of line breaks, ending at the first '\r' or '\n' |
| Guards.RequestLineGuardAgrees | myserver.cc:564-594 | on a text without line breaks the corrected guard, which applies the patterns to the request line, gives the same verdict as regexGuard as written |
| Guards.ExampleLineAccepted | myserver.cc:571-580 | the request line `GET /index.html HTTP/1.1` matches the method pattern and the version pattern |
| Guards.ExampleRequestAccepted | myserver.cc:564-594 | the corrected guard admits `GET /index.html HTTP/1.1\r\n\r\n` |
| Guards.TokensWellFormed | myserver.cc:265-275 | the three strtok tokens are non-empty; the method and the target hold no space; the version holds no space, '\r' or '\n' |
| Guards.TokeniseLayout | myserver.cc:265-275 | a line laid out as method, space, target, space, version, followed by the end or by a space, line break or NUL, is cut into exactly those three tokens; a target of exactly "/" becomes "/index.html" and every other target is kept unchanged |
| Guards.MethodNulFree | myserver.cc:267 | the method token holds no NUL, since it is cut out of a C string |
| Guards.WordIsFirstToken | myserver.cc:265-267 | when the method pattern matches the request line, strtok's first token is the matched word as spelt in the text, and it upper-cases to that word |
| Guards.GuardedMethod | myserver.cc:564-594 | a request the guard lets through has a first token that upper-cases to GET, HEAD or OPTIONS |
| Guards.URIGuard | myserver.cc:537-561 | URIGuard returns 403 whenever the handle contains "..", whatever the filesystem says. Otherwise it returns 404 when the path is missing, 403 when the path is not both regular and world-readable, and 200 OK otherwise. Each status is stated as an if-and-only-if |
| Guards.TraversalForbidden | myserver.cc:541-543 | `/../etc/passwd` is refused with 403 whatever stat reports |
| Response.HeaderLines | myserver.cc:437-461 | the header is exactly five lines, in order: status line `version + " " + status`, the server line, `Date: <date> GMT`, `Content-Length: <n>`, and an empty line; there is no content-type line |
| Response.ContentLengthValue | myserver.cc:443-452 | the Content-Length value reads back as 0 when the upper-cased method is OPTIONS and as filesize otherwise |
| Response.LinesUnlines | myserver.cc:437-461 | splitting the joined header lines at '\n' gives the lines back |
| Response.ErrorResponseFramed | myserver.cc:420-435 | unless the method upper-cases to OPTIONS, an error response's Content-Length value reads back as exactly the length of its body |
| Response.ErrorResponseLines | myserver.cc:420-435 | unless the method upper-cases to OPTIONS, an error response splits into exactly eight lines: the status line `version + " " + error`, the server line, `Date: <date> GMT`, `Content-Length: <body length>`, an empty line, then `<html>`, the error, `</html>` |
| Response.ErrorBodyLines | myserver.cc:424 | the error body is the three lines `<html>`, the status, `</html>` |
| Response.OptionsBodyLines | myserver.cc:403-406 | the OPTIONS body is the three capability lines advertising GET,HEAD,OPTIONS |
| Response.OptionsDeclaresNoBody | myserver.cc:400-418 | an OPTIONS response is the five header lines declaring Content-Length 0, followed by the three capability lines |
| Response.ContentTypeCaseInsensitive | myserver.cc:476-501 | the content type of a name does not depend on the case of its letters |
| Response.ContentTypeAfterFirstDot | myserver.cc:479-500 | for `stem.ext` with a stem free of dots, the content type is the MIME type of the upper-cased ext |
| Response.ContentTypeWithoutDot | myserver.cc:479-481 | a name without a dot is compared whole, since npos + 1 wraps to 0 |
| Response.ContentTypeOfTwoDots | myserver.cc:479-500 | a name with a second dot after its first gets the empty content type, since no table entry holds a dot |
| Response.ListenVerdict | myserver.cc:463-474 | the verdict is None (substr throws) exactly when the version is shorter than 7, and "keep" exactly when the character at index 7 is '1' |
| Response.ListenVerdictExamples | myserver.cc:463-474 | HTTP/1.1 keeps the connection, HTTP/1.0 and HTTP/1. do not, and HTTP/1 makes substr throw |
| Response.TruncDiv | myserver.cc:506 | C++ `int` division truncates toward zero: for a non-negative dividend the quotient times the divisor lies within one divisor below it, and for a negative dividend within one divisor above it |
| Response.TimeoutAntitone | myserver.cc:504-509 | getTimeout never grows as connectionsOpen grows (C++ truncating division written out) |
| Response.TimeoutValues | myserver.cc:504-509 | getTimeout is 20000 ms with no connection open, 15000 ms for 1-199, 10000 ms for 200-299, and never above 20000 ms for a non-negative count |
| Transfer.ChunkLen | myserver.cc:353-364 | a step sends min(PACK_SIZ, filesize - filepos) bytes: at most a packet, a whole packet while one remains, and never more than what is left |
| Transfer.StreamLength | myserver.cc:362-382 | the steps from filepos on send exactly filesize - filepos bytes in total, whatever the file holds |
| Transfer.StreamIsFile | myserver.cc:362-382 | when the file keeps its measured size, the steps send it from filepos on, in file order |
| Transfer.StepsCount | myserver.cc:362-382 | a transfer takes ceil((filesize - filepos) / PACK_SIZ) steps, and one step for an empty remainder |
| Transfer.FinalCursor | myserver.cc:368-371 | the cursor ends at or past filesize and, for a non-empty remainder, less than one packet past it |
| Transfer.ThreeThousandBytes | myserver.cc:353-382 | a 3000-byte file is sent in three steps of 1450, 1450 and 100 bytes, in file order |
| Server.Dispatch | myserver.cc:261-332 | a request gets 400 exactly when the corrected request-line guard `Guards.RequestLineGuard` refuses it (regexGuard as written refuses every request, see Findings). It is dropped (substr throws) exactly when it is admitted with a version shorter than 7. Any refusal by URIGuard carries 403 or 404 |
| Server.TargetRoute | myserver.cc:292-327 | a request that is not exactly OPTIONS is refused exactly when URIGuard does not return 200 OK, and gets 404 File Not Found exactly when the target passes but does not open |
| Server.MethodRoute | myserver.cc:303-314 | a servable target is queued exactly when the method, cut at its first NUL, upper-cases to GET, answered as HEAD exactly when it upper-cases to HEAD, and refused with 501 otherwise |
| Server.ServedMethodRoute | myserver.cc:261-314 | an admitted request that is not exactly OPTIONS, with a version of at least 7 characters and a target that passes URIGuard and opens, is queued exactly when its method upper-cases to GET, answered as HEAD exactly when it upper-cases to HEAD, and answered 501 exactly when it upper-cases to OPTIONS |
| Server.ParsedRoute | myserver.cc:278-327 | a parsed request is dropped exactly when its version is shorter than 7 characters |
| Server.OtherMethodBadRequest | myserver.cc:263-314 | a method that does not upper-case to GET, HEAD or OPTIONS (DELETE, PUT, ...) is answered 400, never 501 |
| Server.NotImplementedOnlyForOptionsSpelling | myserver.cc:288-314 | 501 is answered only to a method that is not exactly "OPTIONS" yet upper-cases to it |
| Server.DispatchLayout | myserver.cc:265-327 | a well laid-out line that the guard admits is routed on its own three tokens, with "/" read as /index.html |
| Server.Answer | myserver.cc:374-377 | each respond* function sends its response first, and closes the socket exactly when the connection is not kept |
| Server.StepSends | myserver.cc:339-367 | one respondToGET step sends the header only when filepos is 0, then the chunk at filepos |
| Server.TransferSendsHeaderThenFile | myserver.cc:335-383 | the steps of a transfer from filepos 0 send the 200 OK header once, then the whole file, in order |
| Server.TransferClosesLast | myserver.cc:371-377 | a transfer closes its socket only with its last event, and does so exactly when the connection is not kept |
| Server.QueueAppend | myserver.cc:306 | pushing a request that is not queued yet keeps every queued request distinct and in the Queued state |
| Server.Request.constructor | myserver.cc:94-114 | the two-argument constructor sets socket and text and leaves every other field at its default |
| Server.Server.constructor | myserver.cc:37-38 | the server starts with an empty queue, no open connection and nothing done to any socket |
| Server.Server.DoesListenMore | myserver.cc:463-474 | returns the verdict, and shuts down reading exactly when the verdict is "not kept" |
| Server.Server.RespondWithError | myserver.cc:420-435 | sends the header for the error with the body's length, then the body; closes and counts down exactly when the connection is not kept |
| Server.Server.RespondToHEAD | myserver.cc:385-398 | sends the header alone; closes and counts down exactly when the connection is not kept |
| Server.Server.RespondToOPTIONS | myserver.cc:400-418 | records the body length, sends header and capability body; closes and counts down exactly when the connection is not kept |
| Server.Server.RespondToGET | myserver.cc:335-383 | sends the step's events, advances filepos by a whole PACK_SIZ; when the step finishes the transfer the queue is unchanged and the counter drops exactly when not kept, otherwise the request is pushed to the tail and the counter is unchanged |
| Server.Server.EventProcessorStep | myserver.cc:208-217 | on an empty queue nothing changes. Otherwise the front request's step is performed and only that request's cursor changes. The queue becomes the rest followed by the front when it is unfinished, or just the rest when it is finished, with the other entries' order unchanged. The counter drops only for a finished transfer on a connection that is not kept. The queue stays well formed |
| Server.Server.ParseRequestLine | myserver.cc:265-276 | stores in the request exactly the three tokens the strtok calls return |
| Server.Server.AnswerOptions | myserver.cc:287-291 | exact OPTIONS asks doesListenMore again (a second read shutdown when not kept), then answers with the OPTIONS response |
| Server.Server.Respond | myserver.cc:284-327 | performs the route Classify chooses and logs exactly its reply; a GET joins the tail of the queue in the Queued state with its size recorded; the queue stays well formed |
| Server.Server.ListenAndRespond | myserver.cc:278-327 | logs doesListenMore's effect (a listening thread or a read shutdown) and then the reply, or nothing more when substr throws, in which case filesize and continues are unchanged |
| Server.Server.HandleRequest | myserver.cc:261-332 | takes the route Dispatch gives and logs exactly HandleEvents; the queue grows by the request exactly when it is an accepted GET; connectionsOpen drops by one exactly for a 400 or for a response on a connection not kept; the parsed fields are the strtok tokens; only the parsed fields, filesize and continues of the request may change; a 400 leaves filesize at the error body's length and continues false; a dropped request leaves both at their initial values |

## Left out

- Sockets, `recv` loops, `poll` and threads are not part of this model (`mainListener`, `continueListen`, `main`, myserver.cc:126-205). Their effects on a socket are log entries. `handleRequest` and `eventProcessor` run one at a time, never concurrently.
- The filesystem and the clock are parameters: `stat`'s answer, whether the `ifstream` opens, the file's length and contents, and `currentDateTime`'s text.
- The `std::regex` engine is not modelled. The three patterns are written out as predicates.
- The upper-cased copy `tmpstr` that `regexGuard` builds (myserver.cc:567-570) is never used, so it is not modelled. It is built from a buffer without a terminating NUL.
- `strtok` writes NUL characters into the request text's own buffer (myserver.cc:264-275). The model's request text is a constant that this does not change; nothing reads the text after the split.
- `strtok` returning NULL is undefined behaviour at myserver.cc:267-275. `Server.Server.HandleRequest` requires the three tokens to be present (`Server.TokensPresent`).
- The `std::out_of_range` that `substr(7, 1)` throws for a version shorter than 7 is the route `Aborted`. Nothing further happens on that path: the model does not capture the program's termination.
- The `ifstream*` field of `Request` is not modelled. Each step reopens the file by name, as the source does, and reads it from a parameter.
- `free` of a request and the leaks of requests that stay referenced are not modelled.
- Logging to `std::cout` is not modelled.
- Text.Decimal: `filesize` is an unbounded integer, so 32-bit `int` overflow of the file size is not modelled.
- Response.GetTimeout: integer overflow of `100 - connectionsOpen` for extreme counts is not modelled.
- `Server.Server.connectionsOpen` is an unbounded integer, and a decrement below zero is not excluded.
- request.cc is not part of this model: it does not compile and nothing uses it.

Three behaviours of the code that differ from what a typical HTTP server does, and that the model keeps:

- A method such as DELETE is refused with 400 by the guard, not with 501 (`Server.OtherMethodBadRequest`).
- The cursor of a 3000-byte transfer goes 0, 1450, 2900 and ends at 4350, not at 3000 (`Transfer.ThreeThousandBytes`, `Transfer.FinalCursor`).
- The content-type line is computed but never sent (`Response.HeaderLines`).

## Findings

| source | as written | input that shows it | evidently intended | confidence | as-written member | corrected member |
|---|---|---|---|---|---|---|
| myserver.cc:564-594 | `std::regex_match` must match the whole request text, and ECMAScript `.` matches neither '\r' nor '\n'. Every pattern therefore fails on any text that holds a line break, and the receive loops pass on only texts that contain a blank line. Every request is answered 400 | `GET /index.html HTTP/1.1\r\n\r\n` | apply the patterns to the request line, the text before the first line break | high (not executed) | Guards.RegexGuard, with Guards.TerminatedRequestRejected and Guards.ExampleRequestRejected | Guards.RequestLineGuard, with Guards.ExampleRequestAccepted and Guards.RequestLineGuardAgrees; Server.Dispatch and Server.Server.HandleRequest use it |
