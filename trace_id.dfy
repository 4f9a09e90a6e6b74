/** `TraceIDMiddleware.dispatch`: requests to the excluded paths pass
    straight through; every other request gets a trace id (the caller's
    `X-Trace-ID` header, or a fresh uuid4 when it is missing or empty),
    which is installed in the logger's slot and logged when the request
    starts and when it finishes. */
module TraceIdMiddleware {
  import opened Text
  import opened LogLevels
  import opened Logging
  import AppSettings

  /** What the middleware reads of a request: its method, its full URL, the
      URL's path, and the `X-Trace-ID` header if present. */
  datatype Request = Request(httpMethod: string, url: string, path: string, traceHeader: Option<string>)

  /** What the rest of the application does with the request: answers with
      a status code, or raises. */
  datatype Downstream = Responds(status: int) | Fails(error: string)

  /** How `dispatch` finishes. */
  datatype Completion = Response(status: int) | Raised(error: string)

  function Complete(d: Downstream): (c: Completion)
    ensures d.Responds? <==> c.Response?
    ensures d.Responds? ==> c.status == d.status
    ensures d.Fails? ==> c.error == d.error
  {
    match d
    case Responds(s) => Response(s)
    case Fails(e) => Raised(e)
  }

  /** The trace id for a request: the header when it is present and
      non-empty (truthy), otherwise the fresh uuid. */
  function ChosenTraceId(header: Option<string>, uuid: string): (id: string)
    ensures header.Some? && header.value != "" ==> id == header.value
    ensures header.None? || header.value == "" ==> id == uuid
  {
    match header
    case Some(h) => if h != "" then h else uuid
    case None => uuid
  }

  function StartedMessage(req: Request, id: string): (m: string)
    ensures |m| >= 17 + |id| && m[..17] == "Request started: " && m[|m| - |id|..] == id
  {
    var p := "Request started: " + req.httpMethod + " " + req.url + " - TraceID: ";
    assert (p + id)[..17] == p[..17];
    assert (p + id)[|p|..] == id;
    p + id
  }

  function FinishedMessage(req: Request, id: string, status: int): (m: string)
    ensures var tail := " - Status: " + IntToString(status);
            |m| >= 18 + |tail| && m[..18] == "Request finished: " && m[|m| - |tail|..] == tail
  {
    var p := "Request finished: " + req.httpMethod + " " + req.url + " - TraceID: " + id;
    var tail := " - Status: " + IntToString(status);
    assert (p + tail)[..18] == p[..18];
    assert (p + tail)[|p|..] == tail;
    p + tail
  }

  /** Both messages end with the trace id they were given, the second then
      with the status code, which can be read back from its last field. */
  lemma MessagesCarryIdAndStatus(req: Request, id: string, status: nat)
    ensures var m := StartedMessage(req, id);
            |m| >= |id| && m[|m| - |id|..] == id
    ensures var m := FinishedMessage(req, id, status);
            var tail := " - Status: " + NatToString(status);
            |m| >= |tail| && m[|m| - |tail|..] == tail
            && ParseNat(m[|m| - |NatToString(status)|..]) == Some(status)
  {
    var m1 := StartedMessage(req, id);
    var p1 := "Request started: " + req.httpMethod + " " + req.url + " - TraceID: ";
    assert m1 == p1 + id;
    assert m1[|p1|..] == id;
    var digits := NatToString(status);
    var tail := " - Status: " + digits;
    var p2 := "Request finished: " + req.httpMethod + " " + req.url + " - TraceID: " + id;
    var m2 := FinishedMessage(req, id, status);
    assert m2 == p2 + tail;
    assert m2[|p2|..] == tail;
    assert m2 == (p2 + " - Status: ") + digits;
    assert m2[|p2 + " - Status: "|..] == digits;
    NatToStringRoundTrip(status);
  }

  /** The started message tells requests with different ids apart. */
  lemma StartedMessageDeterminesId(req: Request, id1: string, id2: string)
    requires StartedMessage(req, id1) == StartedMessage(req, id2)
    ensures id1 == id2
  {
    var p := "Request started: " + req.httpMethod + " " + req.url + " - TraceID: ";
    assert StartedMessage(req, id1) == p + id1;
    assert StartedMessage(req, id2) == p + id2;
    assert id1 == (p + id1)[|p|..];
    assert id2 == (p + id2)[|p|..];
  }

  class TraceIdMiddleware {
    const logger: Logger
    const settings: AppSettings.Settings

    constructor (logger: Logger, settings: AppSettings.Settings)
      ensures this.logger == logger && this.settings == settings
    {
      this.logger := logger;
      this.settings := settings;
    }

    /** `dispatch`. `uuid` is what `uuid4()` would yield, `downstream` what
        `call_next` does, and `started`/`finished` the call sites of the two
        `info` calls. The trace slot is left holding the id afterwards, and
        a failing downstream call leaves only the start logged. */
    method Dispatch(req: Request, downstream: Downstream, uuid: string, started: CallEnv, finished: CallEnv)
      returns (r: Completion)
      modifies logger`traceId, logger`output
      ensures r == Complete(downstream)
      ensures req.path in AppSettings.ExcludedPaths(settings) ==>
                logger.traceId == old(logger.traceId) && logger.output == old(logger.output)
      ensures req.path !in AppSettings.ExcludedPaths(settings) ==>
                var id := ChosenTraceId(req.traceHeader, uuid);
                && logger.traceId == id
                && logger.output == old(logger.output)
                     + Emitted(logger.minLevel, logger.logFormat, id, INFO, StartedMessage(req, id), started)
                     + (if downstream.Responds?
                        then Emitted(logger.minLevel, logger.logFormat, id, INFO, FinishedMessage(req, id, downstream.status), finished)
                        else [])
    {
      if req.path in AppSettings.ExcludedPaths(settings) {
        return Complete(downstream);
      }
      var id: string;
      if req.traceHeader.None? || req.traceHeader.value == "" {
        id := uuid;
      } else {
        id := req.traceHeader.value;
      }
      logger.SetTraceId(id);
      logger.Info(StartedMessage(req, id), started);
      if downstream.Fails? {
        return Raised(downstream.error);
      }
      logger.Info(FinishedMessage(req, id, downstream.status), finished);
      r := Response(downstream.status);
    }
  }
}
