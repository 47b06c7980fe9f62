/** The stateful part of myserver.cc: the Request record, the global event
  * queue and connection count, handleRequest's dispatch, the respond*
  * functions and one turn of eventProcessor's loop. Sockets are numbers and
  * what the server does to them (send, shutdown, close, starting a thread
  * that listens again) is appended to a log. The filesystem, the clock and
  * what the client sends are parameters. */
module Server {
  import opened Text
  import opened Guards
  import opened Response
  import opened Transfer

  /** What the server does to a socket. */
  datatype Event =
    | Send(socket: int, data: string)
    | ShutdownRead(socket: int)
    | Close(socket: int)
    | Relisten(socket: int)

  /** The path handleRequest takes (myserver.cc:261-332). Aborted: the version
    * is too short for doesListenMore's substr(7, 1), which throws; nothing in
    * the program catches it. */
  datatype Route =
    | BadRequest
    | Aborted
    | Options
    | Enqueued
    | Head
    | NotImplemented
    | OpenFailed
    | Refused(status: string)

  /** handleRequest calls strtok three times; a NULL from any of them is
    * undefined behaviour, so only requests with three tokens are modelled. */
  predicate TokensPresent(reqstr: string)
  {
    RequestLineGuard(reqstr) ==> Tokenise(reqstr).Some?
  }

  /** The route handleRequest takes once the request line is parsed and
    * doesListenMore has given a verdict (myserver.cc:287-327): the exact
    * string OPTIONS is answered whatever the target; otherwise the target must
    * pass URIGuard and open, and the method is compared upper-cased. */
  function Classify(p: Parsed, st: Stat, opens: bool): (route: Route)
    ensures route != BadRequest && route != Aborted
    ensures route.Refused? ==> route.status == URIGuard(p.uri, st) != OK
  {
    if p.httpMethod == "OPTIONS" then Options else TargetRoute(p, st, opens)
  }

  /** The route of a request that is not exactly OPTIONS (myserver.cc:292-327):
    * the target must pass URIGuard and open, then the method decides. */
  function TargetRoute(p: Parsed, st: Stat, opens: bool): (route: Route)
    ensures route != BadRequest && route != Aborted && route != Options
    ensures route.Refused? <==> URIGuard(p.uri, st) != OK
    ensures route == OpenFailed <==> URIGuard(p.uri, st) == OK && !opens
  {
    var status := URIGuard(p.uri, st);
    if status != OK then Refused(status)
    else if !opens then OpenFailed
    else MethodRoute(p.httpMethod)
  }

  /** The route for a target that passed URIGuard and opened
    * (myserver.cc:303-314): the method is compared upper-cased. */
  function MethodRoute(httpMethod: string): (route: Route)
    ensures route == Enqueued || route == Head || route == NotImplemented
    ensures route == Enqueued <==> Upper(CStr(httpMethod)) == "GET"
    ensures route == Head <==> Upper(CStr(httpMethod)) == "HEAD"
  {
    var upper := Upper(CStr(httpMethod));
    if upper == "GET" then Enqueued
    else if upper == "HEAD" then Head
    else NotImplemented
  }

  /** The route handleRequest takes for a parsed request line: none when
    * doesListenMore throws, otherwise the route Classify chooses. */
  function ParsedRoute(p: Parsed, st: Stat, opens: bool): (route: Route)
    ensures route == Aborted <==> |p.version| < 7
    ensures route != BadRequest
  {
    if ListenVerdict(p.version).None? then Aborted else Classify(p, st, opens)
  }

  /** The route handleRequest takes for a request text, given what stat says
    * about the target (st) and whether the ifstream opens it (opens). */
  function Dispatch(reqstr: string, st: Stat, opens: bool): (route: Route)
    requires TokensPresent(reqstr)
    ensures route == BadRequest <==> !RequestLineGuard(reqstr)
    ensures route == Aborted <==>
              RequestLineGuard(reqstr) && |Tokenise(reqstr).value.version| < 7
    ensures route.Refused? ==> route.status == FORBIDDEN || route.status == NOT_FOUND
  {
    if !RequestLineGuard(reqstr) then BadRequest
    else ParsedRoute(Tokenise(reqstr).value, st, opens)
  }

  /** A method that does not upper-case to GET, HEAD or OPTIONS (DELETE, PUT,
    * POST, ...) is answered 400 by the guard, never 501. */
  lemma OtherMethodBadRequest(reqstr: string, st: Stat, opens: bool)
    requires TokensPresent(reqstr) && Tokenise(reqstr).Some?
    requires Upper(Tokenise(reqstr).value.httpMethod) !in {"GET", "HEAD", "OPTIONS"}
    ensures Dispatch(reqstr, st, opens) == BadRequest
  {
    if RequestLineGuard(reqstr) {
      GuardedMethod(reqstr);
      TokeniseMethod(reqstr);
      assert false;
    }
  }

  /** 501 is answered only to a method that is not exactly OPTIONS but
    * upper-cases to it, such as "options" or "Options". */
  lemma NotImplementedOnlyForOptionsSpelling(reqstr: string, st: Stat, opens: bool)
    requires TokensPresent(reqstr)
    requires Dispatch(reqstr, st, opens) == NotImplemented
    ensures var m := Tokenise(reqstr).value.httpMethod; m != "OPTIONS" && Upper(m) == "OPTIONS"
  {
    var m := Tokenise(reqstr).value.httpMethod;
    GuardedMethod(reqstr);
    TokeniseMethod(reqstr);
    MethodNulFree(reqstr);
    CStrOfNulFree(m);
  }

  /** An admitted request that is not exactly OPTIONS, with a version long
    * enough for doesListenMore and a target that passes URIGuard and opens, is
    * queued exactly when its method upper-cases to GET, answered as HEAD
    * exactly when it upper-cases to HEAD, and answered 501 exactly when it
    * upper-cases to OPTIONS. */
  lemma ServedMethodRoute(reqstr: string, st: Stat, opens: bool)
    requires TokensPresent(reqstr) && RequestLineGuard(reqstr)
    requires var p := Tokenise(reqstr).value;
      p.httpMethod != "OPTIONS" && |p.version| >= 7 && URIGuard(p.uri, st) == OK && opens
    ensures var m := Tokenise(reqstr).value.httpMethod;
      && (Dispatch(reqstr, st, opens) == Enqueued <==> Upper(m) == "GET")
      && (Dispatch(reqstr, st, opens) == Head <==> Upper(m) == "HEAD")
      && (Dispatch(reqstr, st, opens) == NotImplemented <==> Upper(m) == "OPTIONS")
  {
    var m := Tokenise(reqstr).value.httpMethod;
    MethodNulFree(reqstr);
    CStrOfNulFree(m);
    GuardedMethod(reqstr);
    TokeniseMethod(reqstr);
  }

  /** A well laid-out request line that the guard admits is routed on its own
    * three tokens, with "/" read as /index.html. */
  lemma DispatchLayout(m: string, t: string, v: string, rest: string, st: Stat, opens: bool)
    requires m != [] && ' ' !in m && '\0' !in m
    requires t != [] && ' ' !in t && '\0' !in t
    requires v != [] && ' ' !in v && '\r' !in v && '\n' !in v && '\0' !in v
    requires rest == [] || rest[0] in {' ', '\r', '\n', '\0'}
    requires RequestLineGuard(m + " " + t + " " + v + rest)
    ensures TokensPresent(m + " " + t + " " + v + rest)
    ensures Dispatch(m + " " + t + " " + v + rest, st, opens) ==
              ParsedRoute(Parsed(m, if t == "/" then "/index.html" else t, v), st, opens)
  {
    TokeniseLayout(m, t, v, rest);
  }

  /** The close and decrement that ends a response when the connection is not
    * kept (myserver.cc:374-377, 393-396, 413-416, 430-433). */
  function CloseUnlessKept(socket: int, continues: bool): seq<Event>
  {
    if continues then [] else [Close(socket)]
  }

  /** doesListenMore's effect on the socket when it returns a verdict: a thread
    * listens again (myserver.cc:280-282) or reading is shut down (:470). */
  function ListenEvent(socket: int, keep: bool): seq<Event>
  {
    if keep then [Relisten(socket)] else [ShutdownRead(socket)]
  }

  /** What each respond* function does: send the response, then close the
    * connection unless it is kept (myserver.cc:374-377, 393-396, 413-416,
    * 430-433). */
  function Answer(socket: int, response: string, keep: bool): (ev: seq<Event>)
    ensures ev != [] && ev[0] == Send(socket, response)
    ensures Close(socket) in ev <==> !keep
  {
    [Send(socket, response)] + CloseUnlessKept(socket, keep)
  }

  /** What handleRequest does to the socket after doesListenMore, for a
    * route Classify chose; an enqueued GET is answered later, by the event
    * processor. OPTIONS calls doesListenMore a second time, which shuts down
    * reading once more when the connection is not kept. */
  function Reply(socket: int, route: Route, p: Parsed, keep: bool, size: int, date: string): seq<Event>
  {
    match route
    case Options =>
      (if keep then [] else [ShutdownRead(socket)])
      + Answer(socket, OptionsResponse(p.version, p.httpMethod, date), keep)
    case Head => Answer(socket, GetHeader(p.version, p.httpMethod, size, OK, date), keep)
    case NotImplemented => Answer(socket, ErrorResponse(p.version, p.httpMethod, NOT_IMPLEMENTED, date), keep)
    case OpenFailed => Answer(socket, ErrorResponse(p.version, p.httpMethod, FILE_NOT_FOUND, date), keep)
    case Refused(status) => Answer(socket, ErrorResponse(p.version, p.httpMethod, status, date), keep)
    case _ => []
  }

  /** What handleRequest does to the socket once the request line is parsed:
    * nothing when doesListenMore throws, and otherwise its verdict's event
    * followed by the reply. */
  function ParsedEvents(socket: int, p: Parsed, st: Stat, opens: bool, size: int, date: string): seq<Event>
  {
    match ListenVerdict(p.version)
    case None => []
    case Some(keep) => ListenEvent(socket, keep) + Reply(socket, Classify(p, st, opens), p, keep, size, date)
  }

  /** Everything handleRequest does to the socket: a 400 response on a closed
    * connection for a request the guard refuses, and otherwise the events for
    * its parsed request line. */
  function HandleEvents(socket: int, reqstr: string, st: Stat, opens: bool, size: int, date: string): seq<Event>
    requires TokensPresent(reqstr)
  {
    if !RequestLineGuard(reqstr) then
      Answer(socket, ErrorResponse("", "", BAD_REQUEST, date), false)
    else
      ParsedEvents(socket, Tokenise(reqstr).value, st, opens, size, date)
  }

  /** What one respondToGET call sends (myserver.cc:339-377): the header on the
    * first call, then the chunk at filepos, then a close when this call ends
    * the transfer and the connection is not kept. */
  function StepEvents(socket: int, header: string, content: string, filesize: int, filepos: nat, continues: bool): seq<Event>
    requires filepos <= filesize
  {
    (if filepos == 0 then [Send(socket, header)] else [])
    + [Send(socket, Chunk(content, filepos, ChunkLen(filesize, filepos)))]
    + (if Finishes(filesize, filepos) then CloseUnlessKept(socket, continues) else [])
  }

  /** The events of all respondToGET calls for one request, from filepos on,
    * when the file holds `content` throughout. */
  function TransferEvents(socket: int, header: string, content: string, filesize: int, filepos: nat, continues: bool): seq<Event>
    requires filepos <= filesize
    decreases filesize - filepos
  {
    var step := StepEvents(socket, header, content, filesize, filepos, continues);
    if Finishes(filesize, filepos) then step
    else step + TransferEvents(socket, header, content, filesize, filepos + PACK_SIZ, continues)
  }

  /** The bytes one event sends to a socket. */
  function SentBy(e: Event, socket: int): string
  {
    if e.Send? && e.socket == socket then e.data else ""
  }

  /** The bytes sent to a socket, in order. */
  function SentData(events: seq<Event>, socket: int): string
  {
    if events == [] then "" else SentBy(events[0], socket) + SentData(events[1..], socket)
  }

  /** The bytes sent by a concatenation are those of its parts, in order. */
  lemma {:induction false} SentDataAppend(a: seq<Event>, b: seq<Event>, socket: int)
    ensures SentData(a + b, socket) == SentData(a, socket) + SentData(b, socket)
  {
    if a == [] {
      assert a + b == b;
    } else {
      SentDataAppend(a[1..], b, socket);
      SentDataCons(a, b, socket);
    }
  }

  /** The step of SentDataAppend: from the tail of a to a. */
  lemma SentDataCons(a: seq<Event>, b: seq<Event>, socket: int)
    requires a != []
    requires SentData(a[1..] + b, socket) == SentData(a[1..], socket) + SentData(b, socket)
    ensures SentData(a + b, socket) == SentData(a, socket) + SentData(b, socket)
  {
    ConsTail(a, b);
    ConcatAssoc(SentBy(a[0], socket), SentData(a[1..], socket), SentData(b, socket));
  }

  lemma SentDataOne(e: Event, socket: int)
    ensures SentData([e], socket) == SentBy(e, socket)
  {
    assert [e][1..] == [];
  }

  /** Sent data of the events of one step: the header on the first step, then
    * the chunk; a close sends nothing. */
  lemma StepSends(socket: int, header: string, content: string, filesize: int, filepos: nat, continues: bool)
    requires filepos <= filesize
    ensures var sent := SentData(StepEvents(socket, header, content, filesize, filepos, continues), socket);
            var chunk := Chunk(content, filepos, ChunkLen(filesize, filepos));
            (filepos == 0 ==> sent == header + chunk) && (filepos != 0 ==> sent == chunk)
  {
    var send := Send(socket, Chunk(content, filepos, ChunkLen(filesize, filepos)));
    var first := if filepos == 0 then [Send(socket, header)] else [];
    var last := if Finishes(filesize, filepos) then CloseUnlessKept(socket, continues) else [];
    SentDataAppend(first + [send], last, socket);
    SentDataAppend(first, [send], socket);
    SentDataOne(send, socket);
    if first != [] {
      SentDataOne(first[0], socket);
    }
    if last != [] {
      SentDataOne(last[0], socket);
    }
  }

  lemma SentConcat(ev: seq<Event>, step: seq<Event>, rest: seq<Event>, socket: int,
                   sent: string, lead: string, chunk: string, tail: string)
    requires ev == step + rest && sent == lead + (chunk + tail)
    requires SentData(step, socket) == lead + chunk && SentData(rest, socket) == tail
    ensures SentData(ev, socket) == sent
  {
    SentDataAppend(step, rest, socket);
    ConcatAssoc(lead, chunk, tail);
  }

  /** What the transfer sends from filepos on: the header on the first step
    * only, then the stream of chunks. */
  predicate SendsStream(socket: int, header: string, content: string, filesize: int, filepos: nat, continues: bool)
    requires filepos <= filesize
  {
    var sent := SentData(TransferEvents(socket, header, content, filesize, filepos, continues), socket);
    (filepos == 0 ==> sent == header + Stream(content, filesize, filepos))
    && (filepos != 0 ==> sent == Stream(content, filesize, filepos))
  }

  /** The last step of a transfer sends what the stream promises. */
  lemma LastStepSendsStream(socket: int, header: string, content: string, filesize: int, filepos: nat, continues: bool)
    requires filepos <= filesize && Finishes(filesize, filepos)
    ensures SendsStream(socket, header, content, filesize, filepos, continues)
  {
    StepSends(socket, header, content, filesize, filepos, continues);
  }

  /** A step that does not end the transfer, followed by the rest of the
    * transfer sending its stream, sends the stream from its own cursor. */
  lemma NextStepSendsStream(socket: int, header: string, content: string, filesize: int, filepos: nat, continues: bool)
    requires filepos <= filesize && !Finishes(filesize, filepos)
    requires SendsStream(socket, header, content, filesize, filepos + PACK_SIZ, continues)
    ensures SendsStream(socket, header, content, filesize, filepos, continues)
  {
    var step := StepEvents(socket, header, content, filesize, filepos, continues);
    var chunk := Chunk(content, filepos, ChunkLen(filesize, filepos));
    var rest := TransferEvents(socket, header, content, filesize, filepos + PACK_SIZ, continues);
    var tail := Stream(content, filesize, filepos + PACK_SIZ);
    StepSends(socket, header, content, filesize, filepos, continues);
    if filepos == 0 {
      SentConcat(TransferEvents(socket, header, content, filesize, filepos, continues), step, rest, socket,
                 header + Stream(content, filesize, filepos), header, chunk, tail);
    } else {
      SentDataAppend(step, rest, socket);
    }
  }

  /** The transfer sends the header (on the first step only) and then the
    * stream of chunks. */
  lemma {:induction false} TransferSendsStream(socket: int, header: string, content: string, filesize: int, filepos: nat, continues: bool)
    requires filepos <= filesize
    ensures SendsStream(socket, header, content, filesize, filepos, continues)
    decreases filesize - filepos
  {
    if Finishes(filesize, filepos) {
      LastStepSendsStream(socket, header, content, filesize, filepos, continues);
    } else {
      TransferSendsStream(socket, header, content, filesize, filepos + PACK_SIZ, continues);
      NextStepSendsStream(socket, header, content, filesize, filepos, continues);
    }
  }

  /** A GET for an unchanged file sends the header and then the file, byte for
    * byte in file order, and nothing else. */
  lemma TransferSendsHeaderThenFile(socket: int, header: string, content: string, continues: bool)
    ensures SentData(TransferEvents(socket, header, content, |content|, 0, continues), socket) == header + content
  {
    TransferSendsStream(socket, header, content, |content|, 0, continues);
    StreamIsFile(content, 0);
  }

  /** The events end with a close exactly when the connection is not kept,
    * and close the socket nowhere before their last event. */
  predicate ClosesLast(ev: seq<Event>, socket: int, continues: bool)
  {
    ev != [] && Close(socket) !in ev[..|ev| - 1]
    && (ev[|ev| - 1] == Close(socket) <==> !continues)
  }

  /** One step closes the socket only as its last event, and only when it
    * ends the transfer of a connection that is not kept. */
  lemma StepClosesLast(socket: int, header: string, content: string, filesize: int, filepos: nat, continues: bool)
    requires filepos <= filesize
    ensures var ev := StepEvents(socket, header, content, filesize, filepos, continues);
            Finishes(filesize, filepos) ==> ClosesLast(ev, socket, continues)
    ensures var ev := StepEvents(socket, header, content, filesize, filepos, continues);
            !Finishes(filesize, filepos) ==> Close(socket) !in ev
  {
    var send := Send(socket, Chunk(content, filepos, ChunkLen(filesize, filepos)));
    var first := if filepos == 0 then [Send(socket, header)] else [];
    var last := if Finishes(filesize, filepos) then CloseUnlessKept(socket, continues) else [];
    var ev := StepEvents(socket, header, content, filesize, filepos, continues);
    assert ev == first + [send] + last;
    assert Close(socket) !in first + [send];
    if last == [] {
      assert ev[..|ev| - 1] == first;
    } else {
      assert ev[..|ev| - 1] == first + [send];
    }
  }

  /** Events without a close, followed by events that close last, close last. */
  lemma ClosesLastAfter(step: seq<Event>, rest: seq<Event>, socket: int, continues: bool)
    requires Close(socket) !in step && ClosesLast(rest, socket, continues)
    ensures ClosesLast(step + rest, socket, continues)
  {
    var ev := step + rest;
    assert ev[..|ev| - 1] == step + rest[..|rest| - 1];
    assert ev[|ev| - 1] == rest[|rest| - 1];
  }

  /** A transfer closes the socket only with its last event, and does so
    * exactly when the connection is not kept. */
  lemma {:induction false} TransferClosesLast(socket: int, header: string, content: string, filesize: int, filepos: nat, continues: bool)
    requires filepos <= filesize
    ensures ClosesLast(TransferEvents(socket, header, content, filesize, filepos, continues), socket, continues)
    decreases filesize - filepos
  {
    StepClosesLast(socket, header, content, filesize, filepos, continues);
    if !Finishes(filesize, filepos) {
      TransferClosesLast(socket, header, content, filesize, filepos + PACK_SIZ, continues);
      ClosesLastAfter(StepEvents(socket, header, content, filesize, filepos, continues),
                      TransferEvents(socket, header, content, filesize, filepos + PACK_SIZ, continues), socket, continues);
    }
  }

  /** No request is queued twice, and each queued request is Queued. */
  ghost predicate QueueValid(q: seq<Request>)
    reads q
  {
    (forall i, j :: 0 <= i < j < |q| ==> q[i] != q[j])
    && forall i :: 0 <= i < |q| ==> q[i].Queued()
  }

  /** The queue without its front is well formed, and the front is Queued
    * and not queued again. */
  lemma QueueTail(q: seq<Request>)
    requires QueueValid(q) && q != []
    ensures QueueValid(q[1..]) && q[0].Queued() && q[0] !in q[1..]
  {
  }

  /** Queuing a Queued request that is not queued yet keeps the queue well formed. */
  lemma QueueAppend(q: seq<Request>, r: Request)
    requires QueueValid(q) && r.Queued() && r !in q
    ensures QueueValid(q + [r])
  {
  }

  /** The Request record of myserver.cc:94-114. The ifstream pointer it
    * carries is not modelled: the file is reopened by name on every step. */
  class Request {
    const socket: int
    const reqstr: string
    var httpMethod: string
    var requestURI: string
    var version: string
    var filesize: int
    var filepos: int
    var continues: bool

    /** The two-argument constructor: every other field at its default. */
    constructor(sock: int, rsIn: string)
      ensures socket == sock && reqstr == rsIn
      ensures Unparsed()
    {
      socket := sock;
      reqstr := rsIn;
      httpMethod := "";
      requestURI := "";
      version := "";
      filesize := 0;
      filepos := 0;
      continues := false;
    }

    predicate Unparsed()
      reads this
    {
      httpMethod == "" && requestURI == "" && version == ""
      && filesize == 0 && filepos == 0 && !continues
    }

    /** What holds of a request while it waits in the event queue: a GET whose
      * cursor is a whole number of packets, still short of the end of the file
      * (or at 0 for an empty file, before its one step). */
    predicate Queued()
      reads this
    {
      0 <= filesize && 0 <= filepos && filepos % PACK_SIZ == 0
      && (filepos < filesize || filepos == 0)
      && Upper(CStr(httpMethod)) == "GET"
    }
  }

  /** The globals eventQueue and connectionsOpen (myserver.cc:37-38), and the
    * log of what has been done to sockets. */
  class Server {
    var eventQueue: seq<Request>
    var connectionsOpen: int
    var log: seq<Event>

    constructor()
      ensures eventQueue == [] && connectionsOpen == 0 && log == []
    {
      eventQueue := [];
      connectionsOpen := 0;
      log := [];
    }

    /** The event queue is well formed. */
    ghost predicate Valid()
      reads this`eventQueue, eventQueue
    {
      QueueValid(eventQueue)
    }

    /** The end of each respond* function: close and count down the
      * connection unless it is kept. */
    method EndUnlessKept(r: Request)
      modifies this`log, this`connectionsOpen
      ensures log == old(log) + CloseUnlessKept(r.socket, r.continues)
      ensures connectionsOpen == old(connectionsOpen) - (if r.continues then 0 else 1)
    {
      if !r.continues {
        log := log + [Close(r.socket)];
        connectionsOpen := connectionsOpen - 1;
      }
    }

    /** Send a response, then end as every respond* function does. */
    method SendAnswer(r: Request, response: string)
      modifies this`log, this`connectionsOpen
      ensures log == old(log) + Answer(r.socket, response, r.continues)
      ensures connectionsOpen == old(connectionsOpen) - (if r.continues then 0 else 1)
    {
      ghost var start := log;
      log := log + [Send(r.socket, response)];
      EndUnlessKept(r);
      ConcatAssoc(start, [Send(r.socket, response)], CloseUnlessKept(r.socket, r.continues));
    }

    /** doesListenMore (myserver.cc:463-474): None when substr throws. */
    method DoesListenMore(r: Request) returns (keep: Option<bool>)
      modifies this`log
      ensures keep == ListenVerdict(r.version)
      ensures log == old(log) + (if keep == Some(false) then [ShutdownRead(r.socket)] else [])
    {
      if |r.version| < 7 {
        return None;
      }
      var digit := r.version[7..if |r.version| == 7 then 7 else 8];
      if AtoiOne(digit) == 1 {
        keep := Some(true);
      } else {
        log := log + [ShutdownRead(r.socket)];
        keep := Some(false);
      }
    }

    /** respondWithError (myserver.cc:420-435). */
    method RespondWithError(r: Request, error: string, date: string)
      modifies this`log, this`connectionsOpen, r`filesize
      ensures r.filesize == |ErrorBody(error)|
      ensures log == old(log) + Answer(r.socket, ErrorResponse(r.version, r.httpMethod, error, date), r.continues)
      ensures connectionsOpen == old(connectionsOpen) - (if r.continues then 0 else 1)
    {
      var body := ErrorBody(error);
      r.filesize := |body|;
      var response := GetHeader(r.version, r.httpMethod, r.filesize, error, date) + body;
      SendAnswer(r, response);
    }

    /** respondToHEAD (myserver.cc:385-398): the header alone. */
    method RespondToHEAD(r: Request, date: string)
      modifies this`log, this`connectionsOpen
      ensures log == old(log) + Answer(r.socket, GetHeader(r.version, r.httpMethod, r.filesize, OK, date), r.continues)
      ensures connectionsOpen == old(connectionsOpen) - (if r.continues then 0 else 1)
    {
      var header := GetHeader(r.version, r.httpMethod, r.filesize, OK, date);
      SendAnswer(r, header);
    }

    /** respondToOPTIONS (myserver.cc:400-418). */
    method RespondToOPTIONS(r: Request, date: string)
      modifies this`log, this`connectionsOpen, r`filesize
      ensures r.filesize == |OPTIONS_BODY|
      ensures log == old(log) + Answer(r.socket, OptionsResponse(r.version, r.httpMethod, date), r.continues)
      ensures connectionsOpen == old(connectionsOpen) - (if r.continues then 0 else 1)
    {
      r.filesize := |OPTIONS_BODY|;
      var response := GetHeader(r.version, r.httpMethod, r.filesize, OK, date) + OPTIONS_BODY;
      SendAnswer(r, response);
    }

    /** respondToGET (myserver.cc:335-383), with the file's contents at the
      * time of the call as a parameter (empty when it cannot be opened). The
      * cursor advances by a whole packet even when fewer bytes were sent. */
    method RespondToGET(r: Request, content: string, date: string)
      requires 0 <= r.filepos <= r.filesize
      modifies this`eventQueue, this`log, this`connectionsOpen, r`filepos
      ensures r.filepos == old(r.filepos) + PACK_SIZ
      ensures log == old(log) + StepEvents(r.socket, GetHeader(r.version, r.httpMethod, r.filesize, OK, date),
                                           content, r.filesize, old(r.filepos), r.continues)
      ensures Finishes(r.filesize, old(r.filepos)) ==>
                eventQueue == old(eventQueue)
                && connectionsOpen == old(connectionsOpen) - (if r.continues then 0 else 1)
      ensures !Finishes(r.filesize, old(r.filepos)) ==>
                eventQueue == old(eventQueue) + [r] && connectionsOpen == old(connectionsOpen)
    {
      ghost var start := log;
      ghost var lead: seq<Event> := [];
      if r.filepos == 0 {
        var header := GetHeader(r.version, r.httpMethod, r.filesize, OK, date);
        log := log + [Send(r.socket, header)];
        lead := [Send(r.socket, header)];
      }
      assert log == start + lead;
      var p := r.filepos;
      var end := r.filesize;
      var len := PACK_SIZ;
      if end - p < PACK_SIZ {
        len := end - p;
      }
      var fileContents := Chunk(content, p, len);
      log := log + [Send(r.socket, fileContents)];
      ConcatAssoc(start, lead, [Send(r.socket, fileContents)]);
      ghost var sent := lead + [Send(r.socket, fileContents)];
      r.filepos := r.filepos + PACK_SIZ;
      if r.filepos >= end {
        EndUnlessKept(r);
        ConcatAssoc(start, sent, CloseUnlessKept(r.socket, r.continues));
      } else {
        eventQueue := eventQueue + [r];
        assert sent + [] == sent;
      }
    }

    /** One turn of eventProcessor's loop (myserver.cc:208-217): respondToGET on
      * the front request, then pop the front. An unfinished request has been
      * pushed to the tail by then, so the turn rotates it there; a finished one
      * leaves the queue. The other entries keep their order. */
    method EventProcessorStep(content: string, date: string)
      requires Valid()
      modifies this, (if eventQueue == [] then [] else eventQueue[..1])`filepos
      ensures Valid()
      ensures old(eventQueue) == [] ==>
                eventQueue == [] && log == old(log) && connectionsOpen == old(connectionsOpen)
      ensures old(eventQueue) != [] ==>
                var r := old(eventQueue[0]);
                r.filepos == old(r.filepos) + PACK_SIZ
                && log == old(log) + StepEvents(r.socket, GetHeader(r.version, r.httpMethod, r.filesize, OK, date),
                                                content, r.filesize, old(r.filepos), r.continues)
                && eventQueue == old(eventQueue[1..]) + (if Finishes(r.filesize, old(r.filepos)) then [] else [r])
                && connectionsOpen ==
                     old(connectionsOpen) - (if Finishes(r.filesize, old(r.filepos)) && !r.continues then 1 else 0)
    {
      if eventQueue != [] {
        ServeFront(eventQueue[0], content, date);
      }
    }

    /** The non-empty turn: respondToGET on the front request r, then pop. */
    method ServeFront(r: Request, content: string, date: string)
      requires Valid() && eventQueue != [] && eventQueue[0] == r
      modifies this, r`filepos
      ensures Valid()
      ensures r.filepos == old(r.filepos) + PACK_SIZ
      ensures log == old(log) + StepEvents(r.socket, GetHeader(r.version, r.httpMethod, r.filesize, OK, date),
                                           content, r.filesize, old(r.filepos), r.continues)
      ensures eventQueue == old(eventQueue[1..]) + (if Finishes(r.filesize, old(r.filepos)) then [] else [r])
      ensures connectionsOpen ==
                old(connectionsOpen) - (if Finishes(r.filesize, old(r.filepos)) && !r.continues then 1 else 0)
    {
      ghost var q := eventQueue;
      QueueTail(q);
      ghost var pos := r.filepos;
      RespondToGET(r, content, date);
      eventQueue := eventQueue[1..];
      if Finishes(r.filesize, pos) {
        assert q[1..] + [] == q[1..];
      } else {
        ConsTail(q, [r]);
        QueueAppend(q[1..], r);
      }
    }

    /** The part of handleRequest after doesListenMore (myserver.cc:284-327):
      * answer OPTIONS, and otherwise respond for the target. */
    method Respond(r: Request, st: Stat, opens: bool, size: nat, date: string) returns (route: Route)
      requires Valid() && r !in eventQueue
      requires r.filepos == 0
      requires ListenVerdict(r.version) == Some(r.continues)
      modifies this, r`filesize, r`continues
      ensures Valid()
      ensures r.continues == old(r.continues)
      ensures route == Classify(Parsed(r.httpMethod, r.requestURI, r.version), st, opens)
      ensures log == old(log) + Reply(r.socket, route, Parsed(r.httpMethod, r.requestURI, r.version),
                                      r.continues, size, date)
      ensures eventQueue == old(eventQueue) + (if route == Enqueued then [r] else [])
      ensures connectionsOpen == old(connectionsOpen) -
                (if route != Enqueued && !r.continues then 1 else 0)
      ensures route == Enqueued ==> r.Queued() && r.filesize == size
    {
      if r.httpMethod == "OPTIONS" {
        AnswerOptions(r, date);
        route := Options;
      } else {
        ghost var q := eventQueue;
        route := RespondToTarget(r, st, opens, size, date);
        if route == Enqueued {
          QueueAppend(q, r);
        }
      }
    }

    /** The exact method OPTIONS (myserver.cc:288-291): doesListenMore again,
      * then respondToOPTIONS, whatever the target. */
    method AnswerOptions(r: Request, date: string)
      requires ListenVerdict(r.version) == Some(r.continues)
      modifies this`log, this`connectionsOpen, r`filesize, r`continues
      ensures r.continues == old(r.continues)
      ensures log == old(log) + ((if r.continues then [] else [ShutdownRead(r.socket)])
                                 + Answer(r.socket, OptionsResponse(r.version, r.httpMethod, date), r.continues))
      ensures connectionsOpen == old(connectionsOpen) - (if r.continues then 0 else 1)
    {
      ghost var start := log;
      var keep := DoesListenMore(r);
      r.continues := keep.value;
      ghost var shut := log[|start|..];
      RespondToOPTIONS(r, date);
      ConcatAssoc(start, shut, Answer(r.socket, OptionsResponse(r.version, r.httpMethod, date), r.continues));
    }

    /** A request other than OPTIONS (myserver.cc:292-327): refuse what
      * URIGuard refuses or what does not open, and otherwise serve the file. */
    method RespondToTarget(r: Request, st: Stat, opens: bool, size: nat, date: string) returns (route: Route)
      requires r.filepos == 0
      modifies this`eventQueue, this`log, this`connectionsOpen, r`filesize
      ensures route == TargetRoute(Parsed(r.httpMethod, r.requestURI, r.version), st, opens)
      ensures log == old(log) + Reply(r.socket, route, Parsed(r.httpMethod, r.requestURI, r.version),
                                      r.continues, size, date)
      ensures eventQueue == old(eventQueue) + (if route == Enqueued then [r] else [])
      ensures connectionsOpen == old(connectionsOpen) -
                (if route != Enqueued && !r.continues then 1 else 0)
      ensures route == Enqueued ==> r.Queued() && r.filesize == size
    {
      var statuscode := URIGuard(r.requestURI, st);
      if statuscode == OK {
        if opens {
          route := ServeFile(r, size, date);
        } else {
          RespondWithError(r, FILE_NOT_FOUND, date);
          route := OpenFailed;
        }
      } else {
        RespondWithError(r, statuscode, date);
        route := Refused(statuscode);
      }
    }

    /** A target that passed URIGuard and opened (myserver.cc:300-316): record
      * its size, then queue a GET, answer a HEAD, refuse anything else with 501. */
    method ServeFile(r: Request, size: nat, date: string) returns (route: Route)
      requires r.filepos == 0
      modifies this`eventQueue, this`log, this`connectionsOpen, r`filesize
      ensures route == MethodRoute(r.httpMethod)
      ensures log == old(log) + Reply(r.socket, route, Parsed(r.httpMethod, r.requestURI, r.version),
                                      r.continues, size, date)
      ensures eventQueue == old(eventQueue) + (if route == Enqueued then [r] else [])
      ensures connectionsOpen == old(connectionsOpen) -
                (if route != Enqueued && !r.continues then 1 else 0)
      ensures route == Enqueued ==> r.Queued() && r.filesize == size
    {
      r.filesize := size;
      var upper := StrToUpper(r.httpMethod);
      if upper == "GET" {
        eventQueue := eventQueue + [r];
        route := Enqueued;
      } else if upper == "HEAD" {
        RespondToHEAD(r, date);
        route := Head;
      } else {
        RespondWithError(r, NOT_IMPLEMENTED, date);
        route := NotImplemented;
      }
    }

    /** The three strtok calls of handleRequest (myserver.cc:269-276), their
      * tokens stored in the request; a target of "/" becomes /index.html. */
    method ParseRequestLine(r: Request)
      requires Tokenise(r.reqstr).Some?
      modifies r`httpMethod, r`requestURI, r`version
      ensures Tokenise(r.reqstr) == Some(Parsed(r.httpMethod, r.requestURI, r.version))
    {
      var p := Tokenise(r.reqstr).value;
      r.httpMethod := p.httpMethod;
      r.requestURI := p.uri;
      r.version := p.version;
    }

    /** handleRequest after the request line is parsed (myserver.cc:278-327):
      * doesListenMore's verdict, a listening thread for a kept connection,
      * then the response for the route Classify chooses. Nothing more happens
      * when doesListenMore throws. */
    method ListenAndRespond(r: Request, st: Stat, opens: bool, size: nat, date: string) returns (route: Route)
      requires Valid() && r !in eventQueue
      requires r.filepos == 0
      modifies this, r`filesize, r`continues
      ensures Valid()
      ensures route == ParsedRoute(Parsed(r.httpMethod, r.requestURI, r.version), st, opens)
      ensures log == old(log) + ParsedEvents(r.socket, Parsed(r.httpMethod, r.requestURI, r.version), st, opens, size, date)
      ensures eventQueue == old(eventQueue) + (if route == Enqueued then [r] else [])
      ensures connectionsOpen == old(connectionsOpen) -
                (if route != Aborted && route != Enqueued && !r.continues then 1 else 0)
      ensures route != Aborted ==> ListenVerdict(r.version) == Some(r.continues)
      ensures route == Aborted ==> r.filesize == old(r.filesize) && r.continues == old(r.continues)
      ensures route == Enqueued ==> r.Queued() && r.filesize == size
    {
      ghost var start := log;
      var keep := DoesListenMore(r);
      if keep.None? {
        assert log == start + [];
        return Aborted;
      }
      r.continues := keep.value;
      if r.continues {
        log := log + [Relisten(r.socket)];
      }
      ghost var listened := ListenEvent(r.socket, r.continues);
      assert log == start + listened;
      route := Respond(r, st, opens, size, date);
      ghost var reply := Reply(r.socket, route, Parsed(r.httpMethod, r.requestURI, r.version), r.continues, size, date);
      ConcatAssoc(start, listened, reply);
    }

    /** handleRequest on a request line the guard lets through
      * (myserver.cc:265-327): parse it, then listen and respond. */
    method AcceptRequest(r: Request, st: Stat, opens: bool, size: nat, date: string) returns (route: Route)
      requires Valid() && r !in eventQueue && r.Unparsed()
      requires Tokenise(r.reqstr).Some?
      modifies this, r`httpMethod, r`requestURI, r`version, r`filesize, r`continues
      ensures Valid()
      ensures Tokenise(r.reqstr) == Some(Parsed(r.httpMethod, r.requestURI, r.version))
      ensures route == ParsedRoute(Parsed(r.httpMethod, r.requestURI, r.version), st, opens)
      ensures log == old(log) + ParsedEvents(r.socket, Parsed(r.httpMethod, r.requestURI, r.version), st, opens, size, date)
      ensures eventQueue == old(eventQueue) + (if route == Enqueued then [r] else [])
      ensures connectionsOpen == old(connectionsOpen) -
                (if route != Aborted && route != Enqueued && !r.continues then 1 else 0)
      ensures route != Aborted ==> ListenVerdict(r.version) == Some(r.continues)
      ensures route == Aborted ==> r.filesize == 0 && !r.continues
      ensures route == Enqueued ==> r.Queued() && r.filesize == size
    {
      ParseRequestLine(r);
      route := ListenAndRespond(r, st, opens, size, date);
    }

    /** handleRequest (myserver.cc:261-332) on a request fresh from the
      * constructor, with the regular-expression guard applied to the request
      * line (see Guards.RequestLineGuard). st is stat's answer for the target,
      * opens whether the ifstream opens it and size its length. */
    method HandleRequest(r: Request, st: Stat, opens: bool, size: nat, date: string) returns (route: Route)
      requires Valid() && r !in eventQueue && r.Unparsed()
      requires TokensPresent(r.reqstr)
      modifies this, r`httpMethod, r`requestURI, r`version, r`filesize, r`continues
      ensures Valid()
      ensures route == Dispatch(r.reqstr, st, opens)
      ensures log == old(log) + HandleEvents(r.socket, r.reqstr, st, opens, size, date)
      ensures eventQueue == old(eventQueue) + (if route == Enqueued then [r] else [])
      ensures connectionsOpen == old(connectionsOpen) -
                (if route == BadRequest || (route != Aborted && route != Enqueued && !r.continues) then 1 else 0)
      ensures route != BadRequest ==>
                Tokenise(r.reqstr) == Some(Parsed(r.httpMethod, r.requestURI, r.version))
      ensures route != BadRequest && route != Aborted ==>
                ListenVerdict(r.version) == Some(r.continues)
      ensures route == BadRequest ==> r.filesize == |ErrorBody(BAD_REQUEST)| && !r.continues
      ensures route == Aborted ==> r.filesize == 0 && !r.continues
      ensures route == Enqueued ==> r.Queued() && r.filesize == size
    {
      if RequestLineGuard(r.reqstr) {
        route := AcceptRequest(r, st, opens, size, date);
      } else {
        RespondWithError(r, BAD_REQUEST, date);
        route := BadRequest;
      }
    }
  }
}
