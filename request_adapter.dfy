/**
 * The HTTP handler built by `makeRequestHandler`: it turns the transport
 * request into an `HttpRequest`, runs the executor once, copies the
 * response headers onto the writer, then writes the status and the body, or
 * on an executor error a failure message, status 500 and the body.
 *
 * The transport's response writer is a recording object: a header map and
 * the trace of `WriteHeader` and `Write` calls made on it.  What the HTTP
 * library finally sends for that trace is not modelled.
 */
module RequestAdapter {
  import opened Wrappers
  import opened StateStore

  newtype byte = b: int | 0 <= b < 256

  /** `http.Header`: each header name maps to its values, in order. */
  type Header = map<string, seq<string>>

  /** The text of a Go `error`, as `%v` formats it. */
  type ErrorText = seq<byte>

  const StatusOK: int := 200
  const StatusInternalServerError: int := 500

  /** The request handed to the executor (Go's nil body is the empty sequence). */
  datatype HttpRequest = HttpRequest(body: seq<byte>, header: Header, queryString: string,
                                     httpMethod: string, host: string)

  /** The response the executor fills in; status 0 means "not set". */
  datatype HttpResponse = HttpResponse(body: seq<byte>, statusCode: int, header: Header)

  /** What `ioutil.ReadAll` returned on the request body: the bytes read, and whether it also reported an error. */
  datatype BodyRead = BodyRead(bytes: seq<byte>, failed: bool)

  /** The transport request; `body` is `None` when `r.Body` is nil. */
  datatype IncomingRequest = IncomingRequest(body: Option<BodyRead>, header: Header, httpMethod: string,
                                             rawQuery: string, host: string)

  /** One call on the response writer, with the writer's header map as it stood at that call. */
  datatype Event =
    | WriteHeader(code: int, headerAtCall: Header)
    | Write(data: seq<byte>, headerAtCall: Header)

  /** What the executor returned: the response it filled in, and its error, if any. */
  datatype Outcome = Outcome(response: HttpResponse, err: Option<ErrorText>)

  /** One call of the executor's `Handle`. */
  datatype Invocation = Invocation(store: Store, request: HttpRequest, response: HttpResponse)

  /** The bytes of the text "[ Failed ] ". */
  const FailedPrefix: seq<byte> := [0x5b, 0x20, 0x46, 0x61, 0x69, 0x6c, 0x65, 0x64, 0x20, 0x5d, 0x20]

  /** The byte of a line feed, "\n". */
  const Newline: byte := 0x0a

  /** ASCII text as bytes. */
  function Ascii(s: string): (b: seq<byte>)
    requires forall i :: 0 <= i < |s| ==> s[i] < 128 as char
    ensures |b| == |s|
    ensures forall i :: 0 <= i < |s| ==> b[i] as int == s[i] as int
  {
    seq(|s|, i requires 0 <= i < |s| => s[i] as int as byte)
  }

  lemma FailedPrefixIsAscii()
    ensures FailedPrefix == Ascii("[ Failed ] ") && [Newline] == Ascii("\n")
  {
  }

  /** The response body written for an executor error: "[ Failed ] ", the error text, a line feed. */
  function FailureMessage(err: ErrorText): (m: seq<byte>)
    ensures |m| == |FailedPrefix| + |err| + 1
    ensures m[..|FailedPrefix|] == FailedPrefix
    ensures m[|FailedPrefix|..|m| - 1] == err
    ensures m[|m| - 1] == Newline
  {
    FailedPrefix + err + [Newline]
  }

  /** The response the executor is given: no body, status 0, an empty header map. */
  function FreshResponse(): HttpResponse {
    HttpResponse([], 0, map[])
  }

  /**
   * The request the executor is given: header map, method, raw query and host
   * copied unchanged; the body is whatever `ReadAll` returned, even when it
   * also reported an error, and empty when there is no body.
   */
  function Normalize(r: IncomingRequest): (req: HttpRequest)
    ensures req.header == r.header && req.httpMethod == r.httpMethod
    ensures req.queryString == r.rawQuery && req.host == r.host
    ensures req.body == match r.body case None => [] case Some(read) => read.bytes
  {
    var input := if r.body.Some? then r.body.value.bytes else [];
    HttpRequest(input, r.header, r.rawQuery, r.httpMethod, r.host)
  }

  /** A body read error changes nothing in the request the executor sees. */
  lemma ReadErrorIsNotSurfaced(r: IncomingRequest, bytes: seq<byte>)
    requires r.body == Some(BodyRead(bytes, true))
    ensures Normalize(r) == Normalize(r.(body := Some(BodyRead(bytes, false))))
    ensures Normalize(r).body == bytes
  {
  }

  /** The status written on success: 200 when the executor left it unset, otherwise its value, unvalidated. */
  function StatusFor(statusCode: int): (s: int)
    ensures statusCode == 0 ==> s == StatusOK
    ensures statusCode != 0 ==> s == statusCode
  {
    if statusCode == 0 then StatusOK else statusCode
  }

  /**
   * The calls the handler makes on the writer after the header copy, every
   * one of them made with the writer's headers equal to `sent`.  On success:
   * the status, then the body.  On an executor error: the failure message,
   * status 500, then the executor's body.  Either way the body comes last
   * and exactly one status is written.
   */
  function CommitTrace(response: HttpResponse, err: Option<ErrorText>, sent: Header): (t: seq<Event>)
    ensures |t| >= 2 && t[|t| - 1] == Write(response.body, sent)
    ensures forall i :: 0 <= i < |t| ==> t[i].headerAtCall == sent
    ensures err.None? ==> t == [WriteHeader(StatusFor(response.statusCode), sent), Write(response.body, sent)]
    ensures err.Some? ==>
      t == [Write(FailureMessage(err.value), sent), WriteHeader(StatusInternalServerError, sent),
            Write(response.body, sent)]
  {
    var status := match err
      case Some(e) => [Write(FailureMessage(e), sent), WriteHeader(StatusInternalServerError, sent)]
      case None => [WriteHeader(StatusFor(response.statusCode), sent)];
    status + [Write(response.body, sent)]
  }

  /** The status codes written in a trace, in order. */
  function StatusWrites(t: seq<Event>): seq<int> {
    if t == [] then []
    else (if t[0].WriteHeader? then [t[0].code] else []) + StatusWrites(t[1..])
  }

  /** The status writes of two traces in sequence are those of the first, then those of the second. */
  lemma {:induction false} StatusWritesAppend(a: seq<Event>, b: seq<Event>)
    ensures StatusWrites(a + b) == StatusWrites(a) + StatusWrites(b)
    decreases |a|
  {
    if a != [] {
      assert (a + b)[1..] == a[1..] + b;
      StatusWritesAppend(a[1..], b);
    } else {
      assert a + b == b;
    }
  }

  /**
   * Whatever status the executor set, an executor error leads to exactly one
   * status write, 500, and the failure message is written before it.
   */
  lemma ErrorOverridesStatus(response: HttpResponse, err: ErrorText, sent: Header)
    ensures var t := CommitTrace(response, Some(err), sent);
            StatusWrites(t) == [StatusInternalServerError] && t[0] == Write(FailureMessage(err), sent)
  {
    var message := [Write(FailureMessage(err), sent)];
    var status := [WriteHeader(StatusInternalServerError, sent)];
    var body := [Write(response.body, sent)];
    assert CommitTrace(response, Some(err), sent) == message + status + body;
    StatusWritesAppend(message, status);
    StatusWritesAppend(message + status, body);
  }

  /** Without an executor error, exactly one status is written: `StatusFor` of the executor's status. */
  lemma SuccessWritesOneStatus(response: HttpResponse, sent: Header)
    ensures StatusWrites(CommitTrace(response, None, sent)) == [StatusFor(response.statusCode)]
  {
    var status := [WriteHeader(StatusFor(response.statusCode), sent)];
    var body := [Write(response.body, sent)];
    assert CommitTrace(response, None, sent) == status + body;
    StatusWritesAppend(status, body);
  }

  /** The transport's response writer, recording every call made on it. */
  class RecordingWriter {
    var header: Header
    var events: seq<Event>

    constructor (initial: Header)
      ensures header == initial && events == []
    {
      header := initial;
      events := [];
    }

    /** `w.Header()[k] = v` */
    method SetHeader(k: string, v: seq<string>)
      modifies this
      ensures header == old(header)[k := v]
      ensures events == old(events)
    {
      header := header[k := v];
    }

    /** `w.WriteHeader(code)` */
    method WriteHeader(code: int)
      modifies this
      ensures header == old(header)
      ensures events == old(events) + [Event.WriteHeader(code, header)]
    {
      events := events + [Event.WriteHeader(code, header)];
    }

    /** `w.Write(data)` */
    method Write(data: seq<byte>)
      modifies this
      ensures header == old(header)
      ensures events == old(events) + [Event.Write(data, header)]
    {
      events := events + [Event.Write(data, header)];
    }
  }

  /**
   * The execution handler, left abstract: `behaviour` says what it does to a
   * request and a fresh response for a given store, and `calls` records each
   * time it is invoked.
   */
  class Executor {
    const behaviour: (Store, HttpRequest, HttpResponse) -> Outcome
    var calls: seq<Invocation>

    constructor (behaviour: (Store, HttpRequest, HttpResponse) -> Outcome)
      ensures this.behaviour == behaviour && calls == []
    {
      this.behaviour := behaviour;
      calls := [];
    }

    method Handle(store: Store, request: HttpRequest, response: HttpResponse) returns (out: Outcome)
      modifies this
      ensures calls == old(calls) + [Invocation(store, request, response)]
      ensures out == behaviour(store, request, response)
    {
      calls := calls + [Invocation(store, request, response)];
      out := behaviour(store, request, response);
    }
  }

  /**
   * `for k, v := range header { w.Header()[k] = v }`: every key of `header`
   * is set on the writer, in whatever order the map is ranged over; the
   * writer's other keys and its trace are unchanged.
   */
  method CopyHeaders(w: RecordingWriter, header: Header)
    modifies w
    ensures w.header == old(w.header) + header
    ensures w.events == old(w.events)
  {
    var pending := header.Keys;
    ghost var copied: set<string> := {};
    while pending != {}
      invariant pending + copied == header.Keys && pending !! copied
      invariant w.header == old(w.header) + (map k | k in copied :: header[k])
      invariant w.events == old(w.events)
      decreases pending
    {
      var k :| k in pending;
      w.SetHeader(k, header[k]);
      pending := pending - {k};
      copied := copied + {k};
    }
    assert (map k | k in copied :: header[k]) == header;
  }

  /**
   * One request through the handler.  The executor runs exactly once, on the
   * normalised request, a fresh response and the selected store.  The
   * writer's headers end up as before, overridden by every header of the
   * executor's response (headers it does not name are untouched), and that
   * copy is complete before the first writer call, which then follow
   * `CommitTrace`.
   */
  method ServeHTTP(w: RecordingWriter, r: IncomingRequest, store: Store, executor: Executor)
    modifies w, executor
    ensures executor.calls == old(executor.calls) + [Invocation(store, Normalize(r), FreshResponse())]
    ensures var out := executor.behaviour(store, Normalize(r), FreshResponse());
            && w.header == old(w.header) + out.response.header
            && w.events == old(w.events) + CommitTrace(out.response, out.err, w.header)
  {
    var input: seq<byte> := [];
    if r.body.Some? {
      // A read error is only logged; the bytes read so far are used.
      input := r.body.value.bytes;
    }
    var req := HttpRequest(input, r.header, r.rawQuery, r.httpMethod, r.host);
    assert req == Normalize(r);

    var out := executor.Handle(store, req, FreshResponse());
    var response := out.response;

    CopyHeaders(w, response.header);

    if out.err.Some? {
      var errorStr := FailureMessage(out.err.value);
      w.Write(errorStr);
      w.WriteHeader(StatusInternalServerError);
    } else if response.statusCode == 0 {
      w.WriteHeader(StatusOK);
    } else {
      w.WriteHeader(response.statusCode);
    }

    w.Write(response.body);
  }
}
