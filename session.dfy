/** The older templated session: the same admission and response selection
    as `session_base`, with a looser method check, a per-character log
    sanitiser, a buffer cleared by every response, and 413 checked before
    keep-alive after a write. */
module Session {
  import opened Common
  import opened Analytics
  import opened NginxConfigServerBlock
  import opened Http
  import SessionBase

  /** The methods this version refuses with 405. */
  predicate MethodRefused(v: Verb) {
    v == Delete || v == Head || v == Put || v == Connect || v == Options || v == Trace
  }

  /** `verify_req`: 400 for an unknown method and 405 for the six listed
      methods; every other method, including verbs such as PATCH, goes on to
      the target, version and Content-Length checks. */
  function VerifyReq(req: Request): (code: int)
    ensures code == 0 || code == 400 || code == 403 || code == 405 || code == 411 || code == 505
    ensures code == 400 <==> req.verb.Unknown?
    ensures code == 405 <==> MethodRefused(req.verb)
    ensures code == 403 <==> !req.verb.Unknown? && !MethodRefused(req.verb) && TargetForbidden(req.target)
    ensures code == 0 <==> !req.verb.Unknown? && !MethodRefused(req.verb) && !TargetForbidden(req.target)
                           && VersionSupported(req.version)
                           && (req.verb == Post ==> req.contentLength.Some?)
  {
    match req.verb
    case Unknown(_) => 400
    case Delete => 405
    case Head => 405
    case Put => 405
    case Connect => 405
    case Options => 405
    case Trace => 405
    case _ => VerifyAfterMethod(req)
  }

  /** The two versions disagree exactly on the known methods other than the
      eight named ones: the newer refuses them with 405, this one lets them
      through to the remaining checks. */
  lemma VerifyReqVersionsDiffer(req: Request)
    ensures VerifyReq(req) != SessionBase.VerifyReq(req) <==> req.verb.OtherKnown?
    ensures req.verb.OtherKnown? ==>
      SessionBase.VerifyReq(req) == 405 && VerifyReq(req) == VerifyAfterMethod(req)
  {
  }

  /** A known verb such as PATCH is valid here when its target and version
      are fine, and is then dispatched to the POST handler. */
  lemma OtherVerbDispatched(name: string, target: string, version: int)
    requires !TargetForbidden(target) && VersionSupported(version)
    ensures VerifyReq(Request(OtherKnown(name), target, version, None, None, false)) == 0
    ensures HandlerName(Request(OtherKnown(name), target, version, None, None, false)) == "PostRequestHandler"
  {
  }

  /** What one character becomes in the log: CR and LF are written as the
      two-character escapes `\r` and `\n`. */
  function EscapeChar(c: char): string {
    if c == '\r' then "\\r" else if c == '\n' then "\\n" else [c]
  }

  /** The sanitised text, one character at a time from the left. */
  function Escaped(s: string): string
    decreases |s|
  {
    if s == [] then [] else Escaped(s[..|s| - 1]) + EscapeChar(s[|s| - 1])
  }

  /** Number of CR and LF characters. */
  function LineBreaks(s: string): nat
    decreases |s|
  {
    if s == [] then 0
    else LineBreaks(s[..|s| - 1]) + (if s[|s| - 1] == '\r' || s[|s| - 1] == '\n' then 1 else 0)
  }

  /** `proc_invalid_req`: the loop appends each character's escape. */
  method ProcInvalidReq(received: string) returns (out: string)
    ensures out == Escaped(received)
  {
    out := "";
    var i := 0;
    while i < |received|
      invariant 0 <= i <= |received|
      invariant out == Escaped(received[..i])
    {
      assert received[..i + 1][..i] == received[..i];
      if received[i] == '\r' {
        out := out + "\\r";
      } else if received[i] == '\n' {
        out := out + "\\n";
      } else {
        out := out + [received[i]];
      }
      i := i + 1;
    }
    assert received[..|received|] == received;
  }

  /** The sanitised text holds no CR and no LF. */
  lemma {:induction false} EscapedNoLineBreaks(s: string)
    ensures forall i :: 0 <= i < |Escaped(s)| ==> Escaped(s)[i] != '\r' && Escaped(s)[i] != '\n'
    decreases |s|
  {
    if s != [] {
      EscapedNoLineBreaks(s[..|s| - 1]);
    }
  }

  /** Each CR or LF grows the text by one character. */
  lemma {:induction false} EscapedLength(s: string)
    ensures |Escaped(s)| == |s| + LineBreaks(s)
    decreases |s|
  {
    if s != [] {
      EscapedLength(s[..|s| - 1]);
    }
  }

  /** Text without CR and LF is logged unchanged. */
  lemma {:induction false} EscapedIdentity(s: string)
    requires forall i :: 0 <= i < |s| ==> s[i] != '\r' && s[i] != '\n'
    ensures Escaped(s) == s
    decreases |s|
  {
    if s != [] {
      EscapedIdentity(s[..|s| - 1]);
      assert s == s[..|s| - 1] + [s[|s| - 1]];
    }
  }

  /** A failed read closes the session: end of stream as information,
      anything else (this version has no SSL-truncation case) as an error. */
  function ReadErrorClose(error: ReadError): (next: Next)
    requires error != NoError
    ensures next.Close?
    ensures next.severity == 0 <==> error == Eof
    ensures next.severity == 2 <==> error != Eof
  {
    if error == Eof then Close(0) else Close(2)
  }

  /** `handle_write`: a failed write closes with an error and logs nothing;
      a successful write logs the metrics, then a 413 closes with a warning
      even on a persistent connection, a persistent connection reads again,
      and anything else closes normally. */
  function AfterWrite(writeOk: bool, res: Response): (w: WriteOutcome)
    ensures w.logged <==> writeOk
    ensures !writeOk ==> w.next == Close(2)
    ensures writeOk && res.status == 413 ==> w.next == Close(1)
    ensures writeOk && res.status != 413 ==> w.next == (if KeepAlive(res) then ReadMore else Close(0))
  {
    if !writeOk then WriteOutcome(Close(2), false)
    else if res.status == 413 then WriteOutcome(Close(1), true)
    else if KeepAlive(res) then WriteOutcome(ReadMore, true)
    else WriteOutcome(Close(0), true)
  }

  /** The two write continuations differ exactly on a persistent 413. */
  lemma AfterWriteVersionsDiffer(writeOk: bool, res: Response)
    ensures AfterWrite(writeOk, res) != SessionBase.AfterWrite(writeOk, res)
        <==> writeOk && res.status == 413 && KeepAlive(res)
  {
  }

  class Session {
    /** Belongs to the server. */
    const config: Config
    const analytics: Analytics
    /** `data_`, the fixed read buffer of `max_length` characters. */
    const data: array<char>
    /** `total_received_data_`. */
    var buffer: string
    /** `client_ip_`. */
    var clientIp: string

    constructor (config: Config, analytics: Analytics)
      ensures this.config == config && this.analytics == analytics
      ensures fresh(data) && data.Length == MaxLength
      ensures buffer == "" && clientIp == ""
    {
      this.config := config;
      this.analytics := analytics;
      data := new char[MaxLength];
      buffer := "";
      clientIp := "";
    }

    /** `create_response(int)`: the log record takes the buffer's length and
        text, then the buffer is cleared. */
    method CreateErrorResponse(status: int) returns (next: Next)
      modifies this`buffer, analytics
      ensures next == ErrorNext(status, old(buffer), Escaped)
      ensures buffer == ""
      ensures analytics.Snapshot() == ErrorCounted(old(analytics.Snapshot()), status)
    {
      var summary, invalid;
      if status == 413 {
        analytics.malicious := analytics.malicious + 1;
        summary, invalid := "(Content Too Large)", "";
      } else if status == 403 {
        analytics.malicious := analytics.malicious + 1;
        summary := "(Forbidden)";
        invalid := ProcInvalidReq(buffer);
      } else {
        analytics.invalid := analytics.invalid + 1;
        summary := "(Invalid)";
        invalid := ProcInvalidReq(buffer);
      }
      var res := StatusResponse(status);
      var info := ReqInfo(|buffer|, summary, invalid);
      buffer := "";
      next := Write(res, info);
    }

    /** `create_response(Request&)`: every path clears the buffer. */
    method CreateResponse(req: Request, handle: (string, Request) -> Response) returns (next: Next)
      modifies this`buffer, analytics
      ensures next == Respond(old(buffer), req, handle, VerifyReq, Escaped)
      ensures buffer == ""
      ensures analytics.Snapshot() == RespondCounted(old(analytics.Snapshot()), req, VerifyReq)
    {
      var reqError := VerifyReq(req);
      if reqError != 0 {
        next := CreateErrorResponse(reqError);
      } else {
        var factory := Dispatch(req, analytics);
        var res := handle(factory, req);
        var info := ReqInfo(|buffer|, RequestSummary(req), "");
        buffer := "";
        next := Write(res, info);
      }
    }

    /** `create_return_response`: the buffer is cleared after the log record
        takes its length. */
    method CreateReturnResponse(req: Request) returns (next: Next)
      modifies this`buffer
      ensures next == ReturnNext(old(buffer), req, ReturnConfigOf(config))
      ensures buffer == ""
    {
      var res := ReturnResponse(config.ret, config.retVal, config.serverType, config.host, req);
      var info := ReqInfo(|buffer|, RequestSummary(req), "");
      buffer := "";
      next := Write(res, info);
    }

    /** `handle_read`, as in the newer session; a written response leaves the
        buffer empty, a further read keeps what has arrived. */
    method HandleRead(endpoint: Option<string>, error: ReadError, bytes: nat,
                      parseReq: string -> Request, handle: (string, Request) -> Response)
      returns (next: Next)
      requires data.Length == MaxLength && bytes <= MaxLength
      modifies this`buffer, this`clientIp, analytics
      ensures endpoint.None? ==>
        next == Close(0) && buffer == old(buffer) && clientIp == old(clientIp)
        && analytics.Snapshot() == old(analytics.Snapshot())
      ensures endpoint.Some? ==> clientIp == endpoint.value
      ensures endpoint.Some? && error != NoError ==>
        next == ReadErrorClose(error) && buffer == old(buffer)
        && analytics.Snapshot() == old(analytics.Snapshot())
      ensures endpoint.Some? && error == NoError ==>
        var received := old(buffer) + data[..bytes];
        next == AfterRead(received, bytes, parseReq(received), ReturnConfigOf(config), handle,
                          VerifyReq, Escaped)
        && buffer == (if next.Write? then "" else received)
        && analytics.Snapshot() == CountedAfterRead(old(analytics.Snapshot()), received, bytes,
                                                    parseReq(received), config.ret, VerifyReq)
    {
      if endpoint.None? {
        return Close(0);
      }
      clientIp := endpoint.value;
      if error == NoError {
        buffer := buffer + data[..bytes];
        if |buffer| >= MaxLength * 4 {
          next := CreateErrorResponse(413);
          return;
        }
        var req := parseReq(buffer);
        if config.ret != 0 {
          next := CreateReturnResponse(req);
          return;
        }
        match req.contentLength {
          case Some(contentLength) =>
            if contentLength >= MaxLength * 4 {
              next := CreateErrorResponse(413);
              return;
            }
            if req.payloadSize.Some? && req.payloadSize.value < contentLength {
              next := ReadMore;
            } else {
              next := CreateResponse(req, handle);
            }
          case None =>
            if bytes < MaxLength {
              next := CreateResponse(req, handle);
            } else if EndsWith(buffer, "\r\n\r\n") {
              next := CreateResponse(req, handle);
            } else {
              next := ReadMore;
            }
        }
      } else if error == Eof {
        next := Close(0);
      } else {
        next := Close(2);
      }
    }
  }
}
