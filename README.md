# webserver core, modelled in Dafny

This project models the decision logic of a small C++ web server built on
Boost.Asio and Boost.Beast, and of its React frontend. It covers:

- **The nginx-style configuration tokenizer** (`Parser::get_token`, `Parser::parse`).
  The hand-written DFA is a function over the configuration text. The method runs
  over a character stream (`InputStream`) and is proved to return the token the
  function computes.
- **The two server-block records and their `validate`.** The older record defaults
  the port in place. The newer one fills empty location `root`/`index` values from
  the server block, changing only those two fields.
- **The two session variants** (`session_base` and the older templated `session<T>`):
  - admission (`verify_req`);
  - the completeness decision after each read;
  - the error, handler and return-directive responses, with their analytics counting;
  - log sanitisation (`proc_invalid_req`);
  - the continuation after a write, with keep-alive as in section 9.3 of RFC 9112.

  Each session is a class holding the accumulated request text, the fixed read
  buffer and references to the configuration and the analytics counters.
- **The static file handler**: the MIME table, and the status, Content-Type, body
  and Connection header chosen from an abstract file status.
- **The two handler registries.** They are maps whose getters insert an entry as a
  side effect of `operator[]`. `get_types` lists the names in `std::map` order.
- **The analytics report**: the uptime decomposition and the request total.
- **The projects page**:
  - the tag filter (`handleChange`, `resolveFilter`);
  - the featured/general split done by `read`;
  - the tag line of a project card.
- **The light/dark switch of the two `Header` components.** React state, local
  storage and the `data-bs-theme` attribute are plain fields.

Calls out of the core are parameters of the model:

- Beast's request parser: `parseReq: string -> Request`.
- The dispatched request handlers: `handle: (string, Request) -> Response`.
- The filesystem: `fs: string -> FileStatus`.
- Boost's `extension()`.
- The clock: the uptime is an argument.
- The database queries: their results are arguments of `Read`.

C++ truncating division is written out (`CDiv`), because Dafny's `/` is Euclidean.
`x / 100 == 3` is proved to mean exactly 300..399 (`Common.Is3xxRange`).

## Model

| member | source | states |
|---|---|---|
| Common.Is3xxRange | src/session/session_base.cc:174 | `ret / 100 == 3` under C++ truncating division holds exactly for 300..399 |
| Common.CDiv | src/analytics.cc:8-12 | C++ `int` division by a positive divisor truncates toward zero: the quotient times the divisor is at most the dividend (from below for non-negative, from above for negative dividends) and within one divisor of it |
| Common.NatToString | src/analytics.cc:24-34 | `std::to_string` of a non-negative number: decimal digits whose value is the number, with no leading zero |
| NginxConfigParser.TypeStr | src/nginx_config_parser.cc:208-220 | every token type has a non-empty name, and only EOF is named "EOF" |
| NginxConfigParser.Scan | src/nginx_config_parser.cc:61-206 | the DFA never moves backwards or past the end; EOF only at the end; never returns INIT; from the initial state every non-EOF result consumes a character |
| NginxConfigParser.QuoteStep | src/nginx_config_parser.cc:123-161 | the quote states stay within the input, report EOF only at its end and never return INIT |
| NginxConfigParser.NextTokenProgress | src/nginx_config_parser.cc:61-206 | each `get_token` call that does not report EOF consumes at least one character; EOF leaves the stream at its end |
| NginxConfigParser.Tokens | src/nginx_config_parser.cc:7-31 | the token sequence `parse` sees ends in exactly one EOF or INVALID, and nothing before it is EOF or INVALID |
| NginxConfigParser.TokensStep | src/nginx_config_parser.cc:14-31 | one loop iteration of `parse`: EOF or INVALID ends the sequence, any other token is followed by the sequence from the new position |
| NginxConfigParser.DelimiterIsOwnToken | src/nginx_config_parser.cc:80-88 | in the initial state `{`, `}` and `;` are one-character BLOCK_START, BLOCK_END and SEMICOLON tokens |
| NginxConfigParser.WhitespaceSkipped | src/nginx_config_parser.cc:101-105 | space, tab, CR and LF before a token are skipped |
| NginxConfigParser.EndOfInput | src/nginx_config_parser.cc:66-74 | at the end of input the call reports EOF with an empty token |
| NginxConfigParser.QuoteRun | src/nginx_config_parser.cc:123-161 | inside a quote, a run without the quote character or a backslash is copied to the token |
| NginxConfigParser.OpenQuoteAtEnd | src/nginx_config_parser.cc:68-71 | reaching the end inside an open quote is INVALID |
| NginxConfigParser.UnterminatedQuoteInvalid | src/nginx_config_parser.cc:68-100 | an opening quote with no later quote character makes the call INVALID |
| NginxConfigParser.WordRun | src/nginx_config_parser.cc:177-202 | inside a WORD, plain word characters are copied to the token |
| NginxConfigParser.WordToken | src/nginx_config_parser.cc:186-197 | a WORD ends at whitespace, which is consumed, or at a delimiter, which is put back |
| NginxConfigParser.WordThenDelimiter | src/nginx_config_parser.cc:193-197 | the delimiter that ended a WORD is the next call's token |
| NginxConfigParser.TrailingWordDiscarded | src/nginx_config_parser.cc:66-74 | a WORD that runs into the end of input is not returned: the call reports EOF |
| NginxConfigParser.TrailingCommentDiscarded | src/nginx_config_parser.cc:66-74 | a comment with no CR or LF before the end of input is not returned: the call reports EOF |
| NginxConfigParser.ClosedQuoteAtEnd | src/nginx_config_parser.cc:66-74 | a quote closed by the last character of the input is not returned: the call reports EOF |
| NginxConfigParser.EscapedCloseAtEnd | src/nginx_config_parser.cc:68-71 | a quote whose last character is an escaped quote is still open at the end of input: INVALID |
| NginxConfigParser.EscapeInWord | src/nginx_config_parser.cc:178-185 | in a WORD a backslash is dropped and the character after it is kept, even whitespace or a delimiter |
| NginxConfigParser.EscapeInQuote | src/nginx_config_parser.cc:125-140 | in a quote a backslash is dropped and the next character is kept without closing the quote |
| NginxConfigParser.QuotedToken | src/nginx_config_parser.cc:164-173 | a QUOTE_WORD keeps its quotes; whitespace after it is consumed, `;` is put back, anything else is INVALID |
| NginxConfigParser.CommentRun | src/nginx_config_parser.cc:116-121 | a comment copies every character up to a line break |
| NginxConfigParser.CommentToken | src/nginx_config_parser.cc:89-121 | a COMMENT starts at `#`, keeps it, and ends at CR or LF, which is consumed |
| NginxConfigParser.GetToken | src/nginx_config_parser.cc:61-206 | the loop over the stream returns the type and text `NextToken` computes, and leaves the stream where it says |
| NginxConfigParser.Parse | src/nginx_config_parser.cc:7-36 | `parse` succeeds exactly when the token sequence ends in EOF rather than INVALID |
| NginxConfigServerBlock.ServerChecks | src/nginx_config_server_block.cc:6-25 | the verdict holds exactly when the 3xx rule holds (allowed status, target present, `$host` only with a host) and the SSL rule holds |
| NginxConfigServerBlock.Inherit | src/nginx_config_server_block.cc:30-33 | an empty location value takes the server's, a set one is kept |
| NginxConfigServerBlock.InheritIdempotent | src/nginx_config_server_block.cc:30-33 | inheriting twice is inheriting once |
| NginxConfigServerBlock.Config.Validate | src/nginx_config_server_block.cc:5-38 | the verdict is the checks; on success every location block of the four lists inherits root and index; on failure nothing changes; nothing else is written |
| NginxConfigServerBlock.ValidateTwice | src/nginx_config_server_block.cc:5-38 | a second `validate` gives the same verdict and leaves the state of a single `validate` |
| NginxConfig.LegacyChecks | src/nginx_config.cc:9-30 | the verdict holds exactly when the content rule (index and root, or a return), the 3xx rule and the SSL rule all hold |
| NginxConfig.DefaultPort | src/nginx_config.cc:6-7 | port 0 becomes 80, any other port is kept |
| NginxConfig.Config.Validate | src/nginx_config.cc:5-32 | the port is defaulted whatever the verdict and is the only field written; the verdict is the checks |
| NginxConfig.ValidatorsAgree | src/nginx_config.cc:9-30 | the older validator is the newer server checks plus the content rule: they differ only on a block without index or root and without a return |
| Http.StatusResponse | src/session/session_base.cc:109-111 | the error response carries the status, HTTP/1.1, no headers and no body |
| Http.KeepAlive | src/session/session_base.cc:206 | Beast's rule: `close` ends the connection, `keep-alive` keeps it, without the header HTTP/1.1 persists |
| Http.VerifyAfterMethod | src/session/session_base.cc:266-294 | 403 exactly for a forbidden target, 505 exactly for an allowed target with an unsupported version, 411 exactly for an otherwise valid POST without Content-Length |
| Http.ForbiddenAt | src/session/session_base.cc:267-275 | the target is refused exactly when `..`, `%2e` or `%%32%65` occurs at some index |
| Http.HandlerName | src/session/session_base.cc:302-311 | GET `/health` goes to the health handler, any other GET to the file handler, every other method to the POST handler |
| Http.DispatchCounted | src/session/session_base.cc:302-308 | `dispatch` counts a file GET as a valid GET and moves no other counter |
| Http.Dispatch | src/session/session_base.cc:299-312 | the chosen factory is `HandlerName` and the counters become `DispatchCounted` |
| Http.ErrorCounted | src/session/session_base.cc:114-128 | an error response raises exactly one counter by one: `malicious` for 413 and 403, `invalid` otherwise |
| Http.Decide | src/session/session_base.cc:39-91 | an oversized buffer, or (with no return directive) a declared body of 4096 or more, is TooLarge, and nothing else is; a return directive is taken exactly when the buffer is small and `ret != 0`; the request is Incomplete exactly when, with no return directive, a declared Content-Length below 4096 exceeds the payload read so far, or, without Content-Length, the read filled the 1024-byte buffer and the text does not end in CRLFCRLF |
| Http.CompleteWithoutLength | src/session/session_base.cc:80-88 | a request without Content-Length is complete after a short read or once the buffer ends in CRLFCRLF |
| Http.CompleteWithLength | src/session/session_base.cc:70-74 | a request whose payload reached its Content-Length is complete |
| Http.ReturnResponse | src/session/session_base.cc:169-189 | status `ret` and HTTP/1.1; Location exactly for 300..399, holding the resolved target, with body "Redirecting to " and the target; otherwise the body is `ret_val` |
| Http.ResolvePlain | src/session/session_base.cc:175-182 | a return target without placeholders is used as written |
| Http.ResolveHttpsRedirect | src/session/session_base.cc:175-182 | `https://$host$request_uri` resolves to the host followed by the request target when neither holds a `$` |
| Http.ReturnNext | src/session/session_base.cc:192-198 | the return response is logged with the buffer length, method and target, and no invalid text |
| Http.ErrorNext | src/session/session_base.cc:108-133 | the error response is logged with the buffer length and its summary; the sanitised buffer is logged except for 413 |
| Http.Respond | src/session/session_base.cc:141-158 | a failing request gets the error response for its code; a valid one gets the dispatched handler's response, logged with method and target |
| Http.RespondCounted | src/session/session_base.cc:141-148 | a failing request counts exactly as `create_response(int)` does for its code (malicious for 413 and 403, invalid otherwise, nothing else changed); a valid one counts as `dispatch` does |
| Http.AfterRead | src/session/session_base.cc:34-91 | an oversized buffer or declared body is answered 413; otherwise a return directive is answered unvalidated; the session reads again exactly when the request is incomplete; a complete request is verified and answered by `create_response`; the result is never a close |
| Http.CountedAfterRead | src/session/session_base.cc:34-91 | a read adds at most one to the total; an oversized request counts as a 413 error (malicious up by one, the other counters unchanged); a return directive and an incomplete request count nothing; a complete request counts as `create_response(Request&)` does |
| SessionBase.VerifyReq | src/session/session_base.cc:254-295 | 400 exactly for an unknown method, 405 exactly for a known method other than GET and POST, 403 for a forbidden target, and 0 exactly for a valid GET or POST |
| SessionBase.ProcInvalidReqNoCrLf | src/session/session_base.cc:321-325 | no CRLF is left in the sanitised text |
| SessionBase.ProcInvalidReqLength | src/session/session_base.cc:321-325 | each CRLF replaced lengthens the text by one |
| SessionBase.ProcInvalidReqIdentity | src/session/session_base.cc:321-325 | text without CRLF is logged unchanged |
| SessionBase.NoCrLfPairs | src/session/session_base.cc:323 | the replacement leaves no CR directly before an LF |
| SessionBase.ReadErrorClose | src/session/session_base.cc:93-102 | end of stream and a truncated SSL stream close at severity 0, any other read error at severity 2 |
| SessionBase.AfterWrite | src/session/session_base.cc:203-221 | a failed write closes with an error unlogged; a persistent connection reads again before the 413 check; a 413 then closes with a warning, anything else normally; metrics are logged after every successful write |
| SessionBase.Own413KeepsReading | src/session/session_base.cc:108-111 | the session's own 413 is HTTP/1.1 without a Connection header, which persists, so the warning close is not taken for it |
| SessionBase.SessionBase.CreateErrorResponse | src/session/session_base.cc:108-134 | writes `ErrorNext` and counts `ErrorCounted` |
| SessionBase.SessionBase.CreateResponse | src/session/session_base.cc:141-161 | writes `Respond` and counts `RespondCounted` |
| SessionBase.SessionBase.CreateReturnResponse | src/session/session_base.cc:165-199 | writes `ReturnNext` for the configured return directive |
| SessionBase.SessionBase.HandleRead | src/session/session_base.cc:25-103 | a vanished client closes at severity 0 with nothing changed; a read error closes as `ReadErrorClose`; a successful read appends the bytes and proceeds as `AfterRead` and `CountedAfterRead` |
| Session.VerifyReq | src/session/session.cc:291-339 | 400 exactly for an unknown method, 405 exactly for the six listed methods, and every other known method checked like GET |
| Session.VerifyReqVersionsDiffer | src/session/session.cc:294-304 | the two `verify_req` versions disagree exactly on known verbs outside the eight named ones, which the newer one refuses with 405 |
| Session.OtherVerbDispatched | src/session/session.cc:291-360 | a verb such as PATCH with a good target and version is valid and goes to the POST handler |
| Session.ProcInvalidReq | src/session/session.cc:365-376 | the loop produces `Escaped` of the received text |
| Session.EscapedNoLineBreaks | src/session/session.cc:365-376 | no CR or LF is left in the sanitised text |
| Session.EscapedLength | src/session/session.cc:365-376 | each CR or LF escaped lengthens the text by one |
| Session.EscapedIdentity | src/session/session.cc:365-376 | text without CR and LF is logged unchanged |
| Session.ReadErrorClose | src/session/session.cc:105-110 | end of stream closes at severity 0, any other read error at severity 2 |
| Session.AfterWrite | src/session/session.cc:231-257 | a failed write closes with an error unlogged; after a successful write a 413 closes with a warning even when persistent, a persistent connection reads again, anything else closes normally |
| Session.AfterWriteVersionsDiffer | src/session/session.cc:240-247 | the two write continuations differ exactly after a successful write of a persistent 413 |
| Session.Session.CreateErrorResponse | src/session/session.cc:117-145 | writes `ErrorNext` of the buffer, counts `ErrorCounted`, and clears the buffer |
| Session.Session.CreateResponse | src/session/session.cc:153-174 | writes `Respond` of the buffer, counts `RespondCounted`, and clears the buffer |
| Session.Session.CreateReturnResponse | src/session/session.cc:179-214 | writes `ReturnNext` of the buffer and clears it |
| Session.Session.HandleRead | src/session/session.cc:37-111 | as the newer session, with no SSL-truncation case; a written response leaves the buffer empty, a further read keeps the text received |
| FileRequestHandler.MimeType | src/file_request_handler.cc:66-88 | a listed extension gets its table entry, any other `application/octet-stream` |
| FileRequestHandler.DefaultMeansUnknown | src/file_request_handler.cc:68-87 | the default media type is returned exactly for extensions not in the table |
| FileRequestHandler.MimeTypeExamples | src/file_request_handler.cc:68-87 | sample rows; the lookup is exact, with no case folding and nothing for a missing dot |
| FileRequestHandler.HandleRequest | src/file_request_handler.cc:14-64 | the file is `root + target`; missing or directory gives 404 text/html with the 404 page; unopenable gives 500 text/plain; opened gives 200 with its MIME type and contents; always HTTP/1.1 with Connection mirroring the request |
| FileRequestHandler.KeepAliveMirrorsRequest | src/file_request_handler.cc:58-61 | the response persists exactly when the request asked to |
| FileRequestHandler.StatusCases | src/file_request_handler.cc:21-50 | the status is 200, 404 or 500, and 200 exactly for an opened file |
| Registry.EntryOf | src/registry.cc:8 | `registry[name]` finds the stored entry, or a value-initialised one |
| Registry.PathsOf | src/registry.cc:49 | `uri_map[uri]` finds the stored list, or an empty one |
| Registry.Touched | src/registry.cc:8 | `operator[]` adds the name if absent and changes no entry |
| Registry.Registered | src/registry.cc:35-42 | `register_handler` stores the factory with an empty URI map and leaves the other names alone |
| Registry.Mapped | src/registry.cc:46-50 | `register_mapping` appends the path to the URI's list, keeping the factory, the other URIs and the other names |
| Registry.StrLessIrreflexive | src/registry.cc:21 | the `std::string` order is irreflexive |
| Registry.StrLessTransitive | src/registry.cc:21 | the `std::string` order is transitive |
| Registry.StrLessTotal | src/registry.cc:21 | any two distinct strings are ordered |
| Registry.AscendingDistinct | src/registry.cc:19-24 | a strictly ascending list has no repeated names |
| Registry.LeastOf | src/registry.cc:21 | the next key of the ordered walk is below every other remaining key |
| Registry.Registry.GetFactory | src/registry.cc:6-9 | returns the stored factory or null, inserting the name when absent |
| Registry.Registry.GetMap | src/registry.cc:13-15 | returns the stored URI map or an empty one, inserting the name when absent |
| Registry.Registry.GetTypes | src/registry.cc:19-24 | lists every registered name once, in ascending order |
| Registry.Registry.RegisterHandler | src/registry.cc:35-42 | the registry becomes `Registered` |
| Registry.Registry.RegisterMapping | src/registry.cc:46-50 | the registry becomes `Mapped` |
| Registry.RegisterThenLookup | src/registry.cc:6-9 | a lookup after registering returns that factory and inserts nothing new |
| Registry.RegisterResetsMappings | src/registry.cc:37-41 | registering a handler discards its earlier mappings; a mapping after it keeps the factory |
| Registry.MappingsInOrder | src/registry.cc:49 | two paths mapped to one URI are kept in the order they were mapped |
| Registry.FreshLookupIsNull | tests/libs/registry_test.cc:5-8 | a name never registered looks up to null |
| RequestHandlerRegistry.Lookup | src/request_handler_registry.cc:4-7 | `registry[name]` gives the stored factory, or null |
| RequestHandlerRegistry.RequestHandlerRegistry.GetHandler | src/request_handler_registry.cc:4-7 | returns `Lookup` and inserts a null entry for an absent name |
| RequestHandlerRegistry.RequestHandlerRegistry.RegisterHandler | src/request_handler_registry.cc:15-19 | overwrites the factory stored for the name |
| RequestHandlerRegistry.RegisterThenGet | src/request_handler_registry.cc:4-19 | after registering, the name looks up to the new factory and every other name is unchanged |
| RequestHandlerRegistry.RegisterAndGet | src/request_handler_registry.cc:4-19 | a register followed by a get returns the registered factory |
| Analytics.Decompose | src/analytics.cc:7-13 | days, hours, minutes and seconds rebuild the uptime, with hours below 24 and minutes and seconds below 60 |
| Analytics.DecomposeUnique | src/analytics.cc:7-13 | that decomposition is the only one with those bounds |
| Analytics.Analytics.constructor | include/analytics.h:18-22 | all five counters start at zero |
| Analytics.Analytics.Report | src/analytics.cc:15-37 | the page is, in order and with nothing between, the fixed head, the uptime line, the total of all five counters, the five counter lines and the fixed tail |
| Projects.SelectedPartition | frontend/src/pages/Projects.tsx:136-140 | every project goes to exactly one of the featured and general lists |
| Projects.SelectedMembers | frontend/src/pages/Projects.tsx:137-140 | a project is in the list for a flag exactly when a document with that flag gave it |
| Projects.JoinTagsCons | frontend/src/pages/Projects.tsx:87-89 | the tag line is the first tag, ", ", and the line of the rest |
| Projects.JoinTagsLength | frontend/src/pages/Projects.tsx:87-89 | the tag line is the tags plus two characters per separator |
| Projects.TerminatedIsJoin | frontend/src/pages/Projects.tsx:88 | the `forEach` text of a non-empty list is its tag line plus one trailing ", " |
| Projects.JsSubstring | frontend/src/pages/Projects.tsx:89 | JavaScript `substring` within bounds is the slice; negative ends give "" |
| Projects.JsSubstringSwap | frontend/src/pages/Projects.tsx:89 | `substring` takes its ends in either order |
| Projects.UnravelTags | frontend/src/pages/Projects.tsx:87-89 | the card's tag line is the tags joined with ", ", and "" for no tags |
| Projects.EnableShowsTagged | frontend/src/pages/Projects.tsx:155-159 | checking a tag's button shows the cards carrying that tag |
| Projects.Projects.constructor | frontend/src/pages/Projects.tsx:41-48 | the filter and the three lists start empty |
| Projects.Projects.HandleChange | frontend/src/pages/Projects.tsx:79 | the button's tag takes the checked state and every other entry stays |
| Projects.Projects.Read | frontend/src/pages/Projects.tsx:118-144 | the tag ids are appended in query order; each project is appended to the featured or the general list by its flag, in query order |
| Projects.Projects.ResolveFilter | frontend/src/pages/Projects.tsx:146-163 | an empty filter shows the card; an enabled key inside some tag shows it; an all-disabled filter shows it; enabled keys that match no tag hide it, also for a card with no tags |
| Header.Initial | frontend/src/components/Header.tsx:12-13 | the state starts as mode "light" and icon "moon" |
| Header.Mounted | frontend/src/components/Header.tsx:17-25 | a stored non-empty mode becomes mode and attribute, with the moon exactly for "light"; nothing stored changes nothing |
| Header.Switched | frontend/src/components/Header.tsx:34-45 | dark goes to light, anything else to dark; after a switch mode and icon agree and the attribute is the mode |
| Header.SwitchTwice | frontend/src/components/Header.tsx:34-45 | from a consistent light or dark state, one switch changes the mode and two restore mode, icon and attribute |
| Header.MountedUnknownMode | frontend/src/components/Header.tsx:21-45 | a stored mode other than "light" and "dark" is shown with the sun, and the next switch goes to dark |
| Header.MountRestoresPersisted | frontend/src/components/Header.tsx:17-32 | the mode written to storage brings back the same mode, icon and attribute on the next mount |
| Header.Header.constructor | frontend/src/components/Header.tsx:12-13 | starts in the initial state with the browser's storage |
| Header.Header.Mount | frontend/src/components/Header.tsx:15-26 | the mount effect applies `Mounted` to the stored "mode" entry |
| Header.Header.Persist | frontend/src/components/Header.tsx:28-32 | the mode is written under "mode" and no other entry changes |
| Header.Header.SwitchColorMode | frontend/src/components/Header.tsx:34-45 | the state becomes `Switched` |
| Header.ClickAndPersist | frontend/src/components/Header.tsx:28-45 | a click followed by the persistence effect leaves a consistent state whose mode is stored |
| ReactHeader.Switched | react_frontend/src/components/Header.tsx:19-28 | the sun goes to the moon and "light", anything else to the sun and "dark"; the attribute is "dark" exactly when the icon is the sun |
| ReactHeader.SwitchTwice | react_frontend/src/components/Header.tsx:19-28 | from the moon or the sun, one switch changes the icon and two restore it |
| ReactHeader.Header.constructor | react_frontend/src/components/Header.tsx:14-17 | the icon starts as the moon |
| ReactHeader.Header.SwitchColorMode | react_frontend/src/components/Header.tsx:19-28 | the state becomes `Switched` |

## Left out

- Asynchronous socket I/O, SSL handshakes and `do_read`/`do_write`/`do_close`. Only the decisions taken after a read or a write completes are modelled. `src/session/https_session.cc` and the HTTP session header are not part of this model.
- Beast's request parser (`parse_req`). It is a parameter `string -> Request`. The parsed request is reduced to method, target, version, Content-Length, payload size and keep-alive.
- Http.KeepAlive: only a Connection value that is exactly `close` or `keep-alive` is recognised. Beast's parsing of token lists (`close, foo`) and letter case is not modelled.
- `std::stoi` overflow on a huge Content-Length value is not modelled. The value is a `nat`.
- Analytics.Decompose: the uptime is a parameter taken to be at least 0, instead of being read from the clock. The `int` overflow is not modelled.
- Analytics counters are unbounded `nat`s. `int` wrap-around is not modelled.
- Content-Length and other headers added by Beast's `prepare_payload` are not modelled.
- The handlers' own work is not modelled: the health and POST handlers, and the `health++` count. The model takes it as the `handle` parameter.
- In `dispatch`, the registry lookup of the factory and the handler's construction are not modelled. `Http.Dispatch` returns the factory name.
- Logging (`Log::*`, `close`'s message text) is not modelled. Each close keeps only its severity, and each exchange only its logged record.
- The filesystem and Boost's `path::extension()` are parameters of `HandleRequest`. The configured root is passed in, in place of the `Config::inst()` singleton.
- Memory management (`new`, `delete`, `free`) and the singletons' `inst()` are not modelled.
- Header/source version skew: the session headers include the older configuration header, but the sessions read `ret_val`, which only the server-block record has. The sessions are modelled against `NginxConfigServerBlock.Config`.
- `Parser::parse(const std::string&)` (opening the file) is not modelled. The stream is a fixed text.
- The Firestore queries are not modelled. `Projects.Read` takes their results as arguments.
- React rendering, routing, and the deferred application of `setState` are not modelled. State updates apply at once, and `read`, which the constructor starts, is the separate `Read`.
- The browser's local storage and the document attribute are plain fields.
- ReactHeader: the two icon assets are build-time URLs. They are modelled as two distinct fixed strings.
- Projects.Projects.ResolveFilter: JavaScript's `for ... in` visits keys in insertion order. The model picks keys in any order, so the proved verdict holds for every order.
