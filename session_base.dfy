/** The newer session: the request admission and response selection of
    `session_base`, with the asynchronous socket operations reduced to the
    decisions they branch on. */
module SessionBase {
  import opened Common
  import opened Analytics
  import opened NginxConfigServerBlock
  import opened Http

  /** Methods that pass the method check: GET and POST only. */
  predicate MethodAllowed(v: Verb) {
    v == Get || v == Post
  }

  /** `verify_req`: the method first (400 for an unknown one, 405 for any
      known method other than GET and POST), then the target, version and
      Content-Length checks; the first failing check decides, 0 means valid. */
  function VerifyReq(req: Request): (code: int)
    ensures code == 0 || code == 400 || code == 403 || code == 405 || code == 411 || code == 505
    ensures code == 400 <==> req.verb.Unknown?
    ensures code == 405 <==> !req.verb.Unknown? && !MethodAllowed(req.verb)
    ensures code == 403 <==> MethodAllowed(req.verb) && TargetForbidden(req.target)
    ensures code == 0 <==> MethodAllowed(req.verb) && !TargetForbidden(req.target)
                           && VersionSupported(req.version)
                           && (req.verb == Post ==> req.contentLength.Some?)
  {
    match req.verb
    case Get => VerifyAfterMethod(req)
    case Post => VerifyAfterMethod(req)
    case Unknown(_) => 400
    case _ => 405
  }

  /** `proc_invalid_req`: every CRLF, found left to right, becomes `" | "`. */
  function ProcInvalidReq(received: string): string {
    ReplaceAll(received, "\r\n", " | ")
  }

  /** No CRLF survives: the sanitised text stays on one log line. */
  lemma ProcInvalidReqNoCrLf(received: string)
    ensures !Contains(ProcInvalidReq(received), "\r\n")
  {
    NoCrLfPairs(received);
    var r := ProcInvalidReq(received);
    forall i | 0 <= i <= |r| - 2
      ensures !MatchAt(r, "\r\n", i)
    {
      assert r[i..i + 2][0] == r[i] && r[i..i + 2][1] == r[i + 1];
    }
    ContainsIff(r, "\r\n");
  }

  /** Each replacement lengthens the text by one character. */
  lemma ProcInvalidReqLength(received: string)
    ensures |ProcInvalidReq(received)| == |received| + Occurrences(received, "\r\n")
  {
    ReplaceAllLength(received, "\r\n", " | ");
  }

  /** Text without CRLF is logged unchanged. */
  lemma ProcInvalidReqIdentity(received: string)
    requires !Contains(received, "\r\n")
    ensures ProcInvalidReq(received) == received
  {
    ReplaceAllAbsent(received, "\r\n", " | ");
  }

  /** The replacement leaves no CR directly followed by LF, and its first
      character is a space or the input's first character. */
  lemma {:induction false} NoCrLfPairs(s: string)
    ensures var r := ReplaceAll(s, "\r\n", " | ");
      (forall i :: 0 <= i < |r| - 1 ==> !(r[i] == '\r' && r[i + 1] == '\n'))
      && (|r| > 0 ==> |s| > 0 && (r[0] == ' ' || r[0] == s[0]))
    decreases |s|
  {
    var r := ReplaceAll(s, "\r\n", " | ");
    if |s| < 2 {
    } else if s[..2] == "\r\n" {
      NoCrLfPairs(s[2..]);
      var rest := ReplaceAll(s[2..], "\r\n", " | ");
      assert r == " | " + rest;
      forall i | 0 <= i < |r| - 1
        ensures !(r[i] == '\r' && r[i + 1] == '\n')
      {
        if i >= 3 {
          assert r[i] == rest[i - 3] && r[i + 1] == rest[i - 2];
        }
      }
    } else {
      NoCrLfPairs(s[1..]);
      var rest := ReplaceAll(s[1..], "\r\n", " | ");
      assert r == [s[0]] + rest;
      forall i | 0 <= i < |r| - 1
        ensures !(r[i] == '\r' && r[i + 1] == '\n')
      {
        if i >= 1 {
          assert r[i] == rest[i - 1] && r[i + 1] == rest[i];
        } else if s[0] == '\r' {
          assert s[1] != '\n';
        }
      }
    }
  }

  /** A failed read closes the session: end of stream and a truncated SSL
      stream are expected and logged as information, anything else as an
      error. */
  function ReadErrorClose(error: ReadError): (next: Next)
    requires error != NoError
    ensures next.Close?
    ensures next.severity == 0 <==> error == Eof || error == StreamTruncated
    ensures next.severity == 2 <==> error == OtherError
  {
    match error
    case Eof => Close(0)
    case StreamTruncated => Close(0)
    case OtherError => Close(2)
  }

  /** `handle_write`: a failed write closes with an error and logs nothing;
      after a successful write a persistent connection reads again before the
      413 check, a 413 then closes with a warning and anything else closes
      normally; the metrics are logged. */
  function AfterWrite(writeOk: bool, res: Response): (w: WriteOutcome)
    ensures w.logged <==> writeOk
    ensures !writeOk ==> w.next == Close(2)
    ensures writeOk && KeepAlive(res) ==> w.next == ReadMore
    ensures writeOk && !KeepAlive(res) ==> w.next == (if res.status == 413 then Close(1) else Close(0))
  {
    if !writeOk then WriteOutcome(Close(2), false)
    else if KeepAlive(res) then WriteOutcome(ReadMore, true)
    else if res.status == 413 then WriteOutcome(Close(1), true)
    else WriteOutcome(Close(0), true)
  }

  /** The session's own 413 response is HTTP/1.1 with no Connection header,
      so it persists: the warning close is not taken for it, and the session
      waits for more data instead. */
  lemma Own413KeepsReading(buffer: string)
    ensures AfterWrite(true, ErrorNext(413, buffer, ProcInvalidReq).res).next == ReadMore
  {
  }

  class SessionBase {
    /** Belongs to the server. */
    const config: Config
    const analytics: Analytics
    /** `data_`, the fixed read buffer of `max_length` characters. */
    const data: array<char>
    /** `total_received_data_`. */
    var buffer: string
    /** `client_ip_`. */
    var clientIp: string

    constructor (config: Config, analytics: Analytics)
      ensures this.config == config && this.analytics == analytics
      ensures fresh(data) && data.Length == MaxLength
      ensures buffer == "" && clientIp == ""
    {
      this.config := config;
      this.analytics := analytics;
      data := new char[MaxLength];
      buffer := "";
      clientIp := "";
    }

    /** `create_response(int)`. */
    method CreateErrorResponse(status: int) returns (next: Next)
      modifies analytics
      ensures next == ErrorNext(status, buffer, ProcInvalidReq)
      ensures analytics.Snapshot() == ErrorCounted(old(analytics.Snapshot()), status)
    {
      var summary, invalid;
      if status == 413 {
        analytics.malicious := analytics.malicious + 1;
        summary, invalid := "(Content Too Large)", "";
      } else if status == 403 {
        analytics.malicious := analytics.malicious + 1;
        summary, invalid := "(Forbidden)", ProcInvalidReq(buffer);
      } else {
        analytics.invalid := analytics.invalid + 1;
        summary, invalid := "(Invalid)", ProcInvalidReq(buffer);
      }
      next := Write(StatusResponse(status), ReqInfo(|buffer|, summary, invalid));
    }

    /** `create_response(Request&)`. */
    method CreateResponse(req: Request, handle: (string, Request) -> Response) returns (next: Next)
      modifies analytics
      ensures next == Respond(buffer, req, handle, VerifyReq, ProcInvalidReq)
      ensures analytics.Snapshot() == RespondCounted(old(analytics.Snapshot()), req, VerifyReq)
    {
      var reqError := VerifyReq(req);
      if reqError != 0 {
        next := CreateErrorResponse(reqError);
      } else {
        var factory := Dispatch(req, analytics);
        var res := handle(factory, req);
        next := Write(res, ReqInfo(|buffer|, RequestSummary(req), ""));
      }
    }

    /** `create_return_response`. */
    method CreateReturnResponse(req: Request) returns (next: Next)
      ensures next == ReturnNext(buffer, req, ReturnConfigOf(config))
    {
      var res := ReturnResponse(config.ret, config.retVal, config.serverType, config.host, req);
      next := Write(res, ReqInfo(|buffer|, RequestSummary(req), ""));
    }

    /** `handle_read`. `endpoint` is the client address, absent once the
        client has gone; `error` and `bytes` are the completed read's result,
        which left its bytes in `data`; `parseReq` stands for Beast's parser
        and `handle` for the dispatched handler. */
    method HandleRead(endpoint: Option<string>, error: ReadError, bytes: nat,
                      parseReq: string -> Request, handle: (string, Request) -> Response)
      returns (next: Next)
      requires data.Length == MaxLength && bytes <= MaxLength
      modifies this`buffer, this`clientIp, analytics
      ensures endpoint.None? ==>
        next == Close(0) && buffer == old(buffer) && clientIp == old(clientIp)
        && analytics.Snapshot() == old(analytics.Snapshot())
      ensures endpoint.Some? ==> clientIp == endpoint.value
      ensures endpoint.Some? && error != NoError ==>
        next == ReadErrorClose(error) && buffer == old(buffer)
        && analytics.Snapshot() == old(analytics.Snapshot())
      ensures endpoint.Some? && error == NoError ==>
        buffer == old(buffer) + data[..bytes]
        && next == AfterRead(buffer, bytes, parseReq(buffer), ReturnConfigOf(config), handle,
                             VerifyReq, ProcInvalidReq)
        && analytics.Snapshot() == CountedAfterRead(old(analytics.Snapshot()), buffer, bytes,
                                                    parseReq(buffer), config.ret, VerifyReq)
    {
      if endpoint.None? {
        return Close(0);
      }
      clientIp := endpoint.value;
      if error == NoError {
        buffer := buffer + data[..bytes];
        if |buffer| >= MaxLength * 4 {
          next := CreateErrorResponse(413);
          return;
        }
        var req := parseReq(buffer);
        if config.ret != 0 {
          next := CreateReturnResponse(req);
          return;
        }
        match req.contentLength {
          case Some(contentLength) =>
            if contentLength >= MaxLength * 4 {
              next := CreateErrorResponse(413);
              return;
            }
            if req.payloadSize.Some? && req.payloadSize.value < contentLength {
              next := ReadMore;
            } else {
              next := CreateResponse(req, handle);
            }
          case None =>
            if bytes < MaxLength {
              next := CreateResponse(req, handle);
            } else if EndsWith(buffer, "\r\n\r\n") {
              next := CreateResponse(req, handle);
            } else {
              next := ReadMore;
            }
        }
      } else if error == Eof {
        next := Close(0);
      } else if error == StreamTruncated {
        next := Close(0);
      } else {
        next := Close(2);
      }
    }
  }
}
