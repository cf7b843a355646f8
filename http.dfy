/** The parts of HTTP handling the two session variants share: abstract
    request and response records standing for the Boost.Beast objects, the
    keep-alive rule, the target and version checks, handler selection, and
    the completeness decision made after each read. */
module Http {
  import opened Common
  import opened Analytics
  import opened NginxConfigServerBlock

  /** `max_length`, the size of one read. */
  const MaxLength: nat := 1024

  /** A request method as Beast classifies it. `OtherKnown` covers the verbs
      Beast knows beyond the eight named ones (PATCH, COPY, LOCK, ...);
      `Unknown` is a method Beast does not recognise, kept with its text. */
  datatype Verb = Get | Post | Delete | Head | Put | Connect | Options | Trace
                | OtherKnown(name: string) | Unknown(text: string)

  /** `req.method_string()`. */
  function MethodString(v: Verb): string {
    match v
    case Get => "GET"
    case Post => "POST"
    case Delete => "DELETE"
    case Head => "HEAD"
    case Put => "PUT"
    case Connect => "CONNECT"
    case Options => "OPTIONS"
    case Trace => "TRACE"
    case OtherKnown(name) => name
    case Unknown(text) => text
  }

  /** What the session reads from a parsed request. `version` is Beast's
      `10 * major + minor`; `contentLength` is the Content-Length header when
      present; `payloadSize` is Beast's `payload_size()`; `keepAlive` is
      Beast's `keep_alive()` on the request. */
  datatype Request = Request(verb: Verb, target: string, version: int,
                             contentLength: Option<nat>, payloadSize: Option<nat>,
                             keepAlive: bool)

  /** What the session and the handlers set on a response. */
  datatype Response = Response(status: int, version: int, location: Option<string>,
                               contentType: Option<string>, connection: Option<string>,
                               body: string)

  /** A bare response with a status, HTTP/1.1 and nothing else. */
  function StatusResponse(status: int): (res: Response)
    ensures res.status == status && res.version == 11 && res.body == ""
    ensures res.location.None? && res.contentType.None? && res.connection.None?
  {
    Response(status, 11, None, None, None, "")
  }

  /** Beast's `keep_alive()` on a response (section 9.3 of RFC 9112): an
      explicit `close` ends the connection, an explicit `keep-alive` keeps it,
      and otherwise HTTP/1.1 and later persist while HTTP/1.0 does not. */
  function KeepAlive(res: Response): (k: bool)
    ensures res.connection == Some("close") ==> !k
    ensures res.connection == Some("keep-alive") ==> k
    ensures res.connection.None? ==> (k <==> res.version >= 11)
  {
    match res.connection
    case Some(c) =>
      if c == "close" then false
      else if c == "keep-alive" then true
      else res.version >= 11
    case None => res.version >= 11
  }

  /** The log record of one exchange: bytes received, a summary, and the
      sanitised request text for invalid requests. */
  datatype ReqInfo = ReqInfo(bytes: nat, summary: string, invalid: string)

  /** What the session does next: read more, write a response, or close with
      a log severity (0 info, 1 warning, 2 error). */
  datatype Next = ReadMore | Write(res: Response, info: ReqInfo) | Close(severity: nat)

  /** The outcome of an asynchronous read. */
  datatype ReadError = NoError | Eof | StreamTruncated | OtherError

  /** A target trying to leave the served tree: `..` or one of two encodings
      of `.`, as case-sensitive substrings. */
  predicate TargetForbidden(target: string) {
    Contains(target, "..") || Contains(target, "%2e") || Contains(target, "%%32%65")
  }

  /** HTTP/0.9, 1.0, 1.1, 2.0 and 3.0. */
  predicate VersionSupported(version: int) {
    version == 9 || version == 10 || version == 11 || version == 20 || version == 30
  }

  /** The checks `verify_req` makes once the method has passed, in order:
      target (403), version (505), Content-Length of a POST (411). */
  function VerifyAfterMethod(req: Request): (code: int)
    ensures code == 0 || code == 403 || code == 411 || code == 505
    ensures code == 403 <==> TargetForbidden(req.target)
    ensures code == 505 <==> !TargetForbidden(req.target) && !VersionSupported(req.version)
    ensures code == 411 <==> !TargetForbidden(req.target) && VersionSupported(req.version)
                             && req.verb == Post && req.contentLength.None?
  {
    if Contains(req.target, "..") then 403
    else if Contains(req.target, "%2e") then 403
    else if Contains(req.target, "%%32%65") then 403
    else if !VersionSupported(req.version) then 505
    else if req.verb == Post && req.contentLength.None? then 411
    else 0
  }

  /** The target check finds a forbidden pattern exactly when it occurs at
      some index of the target. */
  lemma ForbiddenAt(target: string)
    ensures TargetForbidden(target) <==>
      exists i :: MatchAt(target, "..", i) || MatchAt(target, "%2e", i) || MatchAt(target, "%%32%65", i)
  {
    ContainsIff(target, "..");
    ContainsIff(target, "%2e");
    ContainsIff(target, "%%32%65");
  }

  /** `dispatch`'s handler choice: GET `/health` is the health check, any
      other GET is a file, and everything else goes to the POST handler. */
  function HandlerName(req: Request): (name: string)
    ensures name == "HealthRequestHandler" <==> req.verb == Get && req.target == "/health"
    ensures name == "FileRequestHandler" <==> req.verb == Get && req.target != "/health"
    ensures name == "PostRequestHandler" <==> req.verb != Get
  {
    if req.verb == Get then
      if req.target == "/health" then "HealthRequestHandler" else "FileRequestHandler"
    else "PostRequestHandler"
  }

  /** Counters after `dispatch`: a file GET is counted as a valid GET, and no
      other counter moves. */
  function DispatchCounted(c: Counts, req: Request): (r: Counts)
    ensures r.posts == c.posts && r.invalid == c.invalid && r.malicious == c.malicious && r.health == c.health
    ensures r.gets == c.gets + 1 <==> HandlerName(req) == "FileRequestHandler"
    ensures r.gets == c.gets <==> HandlerName(req) != "FileRequestHandler"
  {
    if req.verb == Get && req.target != "/health" then c.(gets := c.gets + 1) else c
  }

  /** `dispatch`: choose the handler factory by name, counting file GETs. The
      registry lookup and handler construction are outside this model. */
  method Dispatch(req: Request, analytics: Analytics) returns (factory: string)
    modifies analytics
    ensures factory == HandlerName(req)
    ensures analytics.Snapshot() == DispatchCounted(old(analytics.Snapshot()), req)
  {
    if req.verb == Get {
      if req.target == "/health" {
        factory := "HealthRequestHandler";
      } else {
        analytics.gets := analytics.gets + 1;
        factory := "FileRequestHandler";
      }
    } else {
      factory := "PostRequestHandler";
    }
  }

  /** Counters after `create_response(int)`: exactly one counter rises by
      one, `malicious` for 413 and 403 and `invalid` for any other status. */
  function ErrorCounted(c: Counts, status: int): (r: Counts)
    ensures Total(r) == Total(c) + 1
    ensures r.gets == c.gets && r.posts == c.posts && r.health == c.health
    ensures r.malicious == c.malicious + 1 <==> status == 413 || status == 403
    ensures r.invalid == c.invalid + 1 <==> status != 413 && status != 403
  {
    if status == 413 || status == 403 then c.(malicious := c.malicious + 1)
    else c.(invalid := c.invalid + 1)
  }

  /** The log summary of an error response. */
  function ErrorSummary(status: int): string {
    if status == 413 then "(Content Too Large)"
    else if status == 403 then "(Forbidden)"
    else "(Invalid)"
  }

  /** The log summary of a handled request: method and target. */
  function RequestSummary(req: Request): string {
    MethodString(req.verb) + " " + req.target
  }

  /** What `handle_read` does with the accumulated buffer. */
  datatype ReadDecision = TooLarge | ReturnDirective | Incomplete | Complete

  /** The decision `handle_read` makes after appending `bytes` new bytes to
      `buffer`, given the configured `ret`. Size first, then the return
      directive, then completeness. */
  function Decide(buffer: string, bytes: nat, req: Request, ret: int): (d: ReadDecision)
    ensures |buffer| >= 4 * MaxLength ==> d == TooLarge
    ensures |buffer| < 4 * MaxLength && ret != 0 ==> d == ReturnDirective
    ensures d == TooLarge <==> (|buffer| >= 4 * MaxLength
      || (ret == 0 && req.contentLength.Some? && req.contentLength.value >= 4 * MaxLength))
    ensures d == Incomplete ==> |buffer| < 4 * MaxLength && ret == 0
    ensures d == Incomplete && req.contentLength.Some? ==>
      req.payloadSize.Some? && req.payloadSize.value < req.contentLength.value
    ensures d == Incomplete && req.contentLength.None? ==>
      bytes >= MaxLength && !EndsWith(buffer, "\r\n\r\n")
    ensures d == ReturnDirective <==> |buffer| < 4 * MaxLength && ret != 0
    ensures d == Incomplete <==>
      (|buffer| < 4 * MaxLength && ret == 0 &&
       match req.contentLength
       case Some(n) => n < 4 * MaxLength && req.payloadSize.Some? && req.payloadSize.value < n
       case None => bytes >= MaxLength && !EndsWith(buffer, "\r\n\r\n"))
  {
    if |buffer| >= 4 * MaxLength then TooLarge
    else if ret != 0 then ReturnDirective
    else match req.contentLength
      case Some(contentLength) =>
        if contentLength >= 4 * MaxLength then TooLarge
        else if req.payloadSize.Some? && req.payloadSize.value < contentLength then Incomplete
        else Complete
      case None =>
        if bytes < MaxLength then Complete
        else if EndsWith(buffer, "\r\n\r\n") then Complete
        else Incomplete
  }

  /** A bodiless request read in one short chunk, or one whose header section
      has ended, is complete. */
  lemma CompleteWithoutLength(buffer: string, bytes: nat, req: Request)
    requires |buffer| < 4 * MaxLength && req.contentLength.None?
    requires bytes < MaxLength || EndsWith(buffer, "\r\n\r\n")
    ensures Decide(buffer, bytes, req, 0) == Complete
  {
  }

  /** A request whose payload has reached its Content-Length is complete. */
  lemma CompleteWithLength(buffer: string, bytes: nat, req: Request, n: nat)
    requires |buffer| < 4 * MaxLength && req.contentLength == Some(n) && n < 4 * MaxLength
    requires req.payloadSize.None? || req.payloadSize.value >= n
    ensures Decide(buffer, bytes, req, 0) == Complete
  {
  }

  /** `$scheme`, `$host` and `$request_uri` in a return target are replaced
      in that order. */
  function ResolveReturnUri(retVal: string, serverType: ServerType, host: string, target: string): string {
    var scheme := if serverType == HttpServer then "http" else "https";
    ReplaceAll(ReplaceAll(ReplaceAll(retVal, "$scheme", scheme), "$host", host), "$request_uri", target)
  }

  /** `create_return_response`: status `ret` and HTTP/1.1; a 3xx status
      carries the resolved target in Location and a body naming it, any other
      status has `retVal` as its body. Content-Length is Beast's business. */
  function ReturnResponse(ret: int, retVal: string, serverType: ServerType, host: string, req: Request): (res: Response)
    ensures res.status == ret && res.version == 11
    ensures res.contentType.None? && res.connection.None?
    ensures res.location.Some? <==> 300 <= ret <= 399
    ensures res.location.Some? ==>
      res.location.value == ResolveReturnUri(retVal, serverType, host, req.target)
      && res.body == "Redirecting to " + res.location.value
    ensures res.location.None? ==> res.body == retVal
  {
    Is3xxRange(ret);
    if Is3xx(ret) then
      var uri := ResolveReturnUri(retVal, serverType, host, req.target);
      Response(ret, 11, Some(uri), None, None, "Redirecting to " + uri)
    else
      Response(ret, 11, None, None, None, retVal)
  }

  /** The parts of a server block `create_return_response` reads. */
  datatype ReturnConfig = ReturnConfig(ret: int, retVal: string, serverType: ServerType, host: string)

  function ReturnConfigOf(c: Config): ReturnConfig
    reads c
  {
    ReturnConfig(c.ret, c.retVal, c.serverType, c.host)
  }

  /** The response and log record `create_return_response` writes. */
  function ReturnNext(buffer: string, req: Request, rc: ReturnConfig): (next: Next)
    ensures next.Write? && next.info == ReqInfo(|buffer|, RequestSummary(req), "")
    ensures next.res == ReturnResponse(rc.ret, rc.retVal, rc.serverType, rc.host, req)
  {
    Write(ReturnResponse(rc.ret, rc.retVal, rc.serverType, rc.host, req), ReqInfo(|buffer|, RequestSummary(req), ""))
  }

  /** The response and log record `create_response(int)` writes: a bare
      response with the status; the sanitised buffer is logged except for a
      413, whose text could flood the log. */
  function ErrorNext(status: int, buffer: string, sanitize: string -> string): (next: Next)
    ensures next.Write? && next.res == StatusResponse(status)
    ensures next.info.bytes == |buffer| && next.info.summary == ErrorSummary(status)
    ensures status == 413 ==> next.info.invalid == ""
    ensures status != 413 ==> next.info.invalid == sanitize(buffer)
  {
    Write(StatusResponse(status),
          ReqInfo(|buffer|, ErrorSummary(status), if status == 413 then "" else sanitize(buffer)))
  }

  /** The response and log record `create_response(Request&)` writes, given
      the version's `verify_req` and `proc_invalid_req`: an error response for
      a failing request, otherwise the chosen handler's response. */
  function Respond(buffer: string, req: Request, handle: (string, Request) -> Response,
                   verify: Request -> int, sanitize: string -> string): (next: Next)
    ensures next.Write? && next.info.bytes == |buffer|
    ensures verify(req) != 0 ==> next == ErrorNext(verify(req), buffer, sanitize)
    ensures verify(req) == 0 ==>
      next.res == handle(HandlerName(req), req) && next.info == ReqInfo(|buffer|, RequestSummary(req), "")
  {
    var code := verify(req);
    if code != 0 then ErrorNext(code, buffer, sanitize)
    else Write(handle(HandlerName(req), req), ReqInfo(|buffer|, RequestSummary(req), ""))
  }

  /** Counters after `create_response(Request&)`: one error count for a
      failing request, the dispatch count otherwise. */
  function RespondCounted(c: Counts, req: Request, verify: Request -> int): (r: Counts)
    ensures verify(req) != 0 ==> Total(r) == Total(c) + 1 && r.gets == c.gets
    ensures verify(req) != 0 ==> r == ErrorCounted(c, verify(req))
    ensures verify(req) == 0 ==> r == DispatchCounted(c, req)
  {
    if verify(req) != 0 then ErrorCounted(c, verify(req)) else DispatchCounted(c, req)
  }

  /** Everything `handle_read` decides after a successful read, once the new
      bytes are in `buffer`: an oversized buffer or declared body is refused
      with 413, a return directive answers without validation, an incomplete
      request waits for more, and a complete one is verified and answered. */
  function AfterRead(buffer: string, bytes: nat, req: Request, rc: ReturnConfig,
                     handle: (string, Request) -> Response,
                     verify: Request -> int, sanitize: string -> string): (next: Next)
    ensures |buffer| >= 4 * MaxLength ==> next == ErrorNext(413, buffer, sanitize)
    ensures |buffer| < 4 * MaxLength && rc.ret != 0 ==> next == ReturnNext(buffer, req, rc)
    ensures next == ReadMore <==> Decide(buffer, bytes, req, rc.ret) == Incomplete
    ensures Decide(buffer, bytes, req, rc.ret) == TooLarge ==> next == ErrorNext(413, buffer, sanitize)
    ensures Decide(buffer, bytes, req, rc.ret) == Complete ==> next == Respond(buffer, req, handle, verify, sanitize)
    ensures next.Write? ==> next.info.bytes == |buffer|
    ensures !next.Close?
  {
    match Decide(buffer, bytes, req, rc.ret)
    case TooLarge => ErrorNext(413, buffer, sanitize)
    case ReturnDirective => ReturnNext(buffer, req, rc)
    case Incomplete => ReadMore
    case Complete => Respond(buffer, req, handle, verify, sanitize)
  }

  /** Counters after `handle_read`'s decision. */
  function CountedAfterRead(c: Counts, buffer: string, bytes: nat, req: Request, ret: int,
                            verify: Request -> int): (r: Counts)
    ensures Total(c) <= Total(r) <= Total(c) + 1
    ensures Decide(buffer, bytes, req, ret) == TooLarge ==> r.malicious == c.malicious + 1
    ensures Decide(buffer, bytes, req, ret) == TooLarge ==> r == ErrorCounted(c, 413)
    ensures Decide(buffer, bytes, req, ret) in {ReturnDirective, Incomplete} ==> r == c
    ensures Decide(buffer, bytes, req, ret) == Complete ==> r == RespondCounted(c, req, verify)
  {
    match Decide(buffer, bytes, req, ret)
    case TooLarge => ErrorCounted(c, 413)
    case ReturnDirective => c
    case Incomplete => c
    case Complete => RespondCounted(c, req, verify)
  }

  /** What `handle_write` does after the write completes, and whether the
      response metrics are logged. */
  datatype WriteOutcome = WriteOutcome(next: Next, logged: bool)

  /** A target without placeholders is used as it is. */
  lemma ResolvePlain(retVal: string, serverType: ServerType, host: string, target: string)
    requires !Contains(retVal, "$scheme") && !Contains(retVal, "$host") && !Contains(retVal, "$request_uri")
    ensures ResolveReturnUri(retVal, serverType, host, target) == retVal
  {
    var scheme := if serverType == HttpServer then "http" else "https";
    ReplaceAllAbsent(retVal, "$scheme", scheme);
    ReplaceAllAbsent(retVal, "$host", host);
    ReplaceAllAbsent(retVal, "$request_uri", target);
  }

  /** The usual HTTP-to-HTTPS redirect `https://$host$request_uri` resolves
      to the host followed by the requested target, whenever neither of them
      contains a `$`. */
  lemma ResolveHttpsRedirect(serverType: ServerType, host: string, target: string)
    requires '$' !in host && '$' !in target
    ensures ResolveReturnUri("https://$host$request_uri", serverType, host, target)
         == "https://" + host + target
  {
    var scheme := if serverType == HttpServer then "http" else "https";
    NoSchemeInHttpsRedirect(scheme);
    HostInHttpsRedirect(host);
    RequestUriAfterHost("https://" + host, target);
  }

  lemma NoSchemeInHttpsRedirect(scheme: string)
    ensures ReplaceAll("https://$host$request_uri", "$scheme", scheme) == "https://$host$request_uri"
  {
    CharMissing("https://$host$request_uri", "$scheme", 2);
    ReplaceAllAbsent("https://$host$request_uri", "$scheme", scheme);
  }

  lemma HostInHttpsRedirect(host: string)
    requires '$' !in host
    ensures ReplaceAll("https://$host$request_uri", "$host", host) == "https://" + host + "$request_uri"
  {
    HttpsRedirectParts();
    NoHostInRequestUri();
    HostBetween("https://", "$request_uri", host);
  }

  lemma HttpsRedirectParts()
    ensures "https://" + "$host" + "$request_uri" == "https://$host$request_uri"
    ensures '$' !in "https://"
  {
  }

  lemma NoHostInRequestUri()
    ensures !Contains("$request_uri", "$host")
  {
    CharMissing("$request_uri", "$host", 1);
  }

  lemma HostBetween(a: string, b: string, host: string)
    requires '$' !in a && !Contains(b, "$host")
    ensures ReplaceAll(a + "$host" + b, "$host", host) == a + host + b
  {
    var pat := "$host";
    assert a + pat + b == a + (pat + b);
    ReplaceAllSkip(a, pat + b, pat, host);
    assert (pat + b)[..|pat|] == pat;
    assert (pat + b)[|pat|..] == b;
    ReplaceAllAbsent(b, pat, host);
  }

  lemma RequestUriAfterHost(lead: string, target: string)
    requires '$' !in lead && '$' !in target
    ensures ReplaceAll(lead + "$request_uri", "$request_uri", target) == lead + target
  {
    var pat := "$request_uri";
    ReplaceAllSkip(lead, pat, pat, target);
    assert pat[|pat|..] == "";
  }

  /** `ReplaceAll` passes over a prefix that holds no first character of the
      pattern. */
  lemma {:induction false} ReplaceAllSkip(a: string, b: string, pat: string, rep: string)
    requires |pat| > 0 && pat[0] !in a
    ensures ReplaceAll(a + b, pat, rep) == a + ReplaceAll(b, pat, rep)
    decreases |a|
  {
    if |a| > 0 {
      var s := a + b;
      if |s| < |pat| {
        assert ReplaceAll(b, pat, rep) == b;
      } else {
        assert s[0] == a[0] != pat[0];
        assert s[..|pat|] != pat;
        assert s[1..] == a[1..] + b;
        ReplaceAllSkip(a[1..], b, pat, rep);
        assert a == [a[0]] + a[1..];
      }
    } else {
      assert a + b == b;
    }
  }
}
