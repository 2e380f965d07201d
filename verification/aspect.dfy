/**
 * The around-advice (`RequestResponseLoggingAspect.logRequestResponse`): two bypass
 * gates, then wrap the request and response, set the correlation id, log the request,
 * run the endpoint, log the response, copy the cached body to the real response, log
 * and rethrow any exception, and clear the correlation id on every way out.
 */
module Interceptor {
  import opened Wrappers
  import opened Text
  import opened LogLevels
  import opened Models
  import opened Properties
  import opened Regex
  import opened Runtime
  import opened Servlet
  import opened LoggingUtilities
  import opened Sequences

  // ---------------------------------------------------------------------------
  // Query parameters

  /** A segment that `split("=")` cuts into exactly two pieces. */
  predicate IsPair(segment: string) {
    |JavaSplit(segment, '=')| == 2
  }

  /** The `queryParams.put` calls for the segments, in order: a later key overwrites an
      earlier one, a segment that is not a pair is skipped. */
  function ParamsOf(segments: seq<string>): map<string, string>
    decreases |segments|
  {
    if segments == [] then map[]
    else
      var params := ParamsOf(segments[..|segments| - 1]);
      var pair := JavaSplit(segments[|segments| - 1], '=');
      if |pair| == 2 then params[pair[0] := pair[1]] else params
  }

  /** `extractQueryParams(request)` as a value. */
  function QueryParams(inclusion: InclusionConfig, queryString: Option<string>): (params: map<string, string>)
    ensures !inclusion.queryParams || queryString.None? ==> params == map[]
  {
    if !inclusion.queryParams || queryString.None? then map[]
    else ParamsOf(JavaSplit(queryString.value, '&'))
  }

  /** A key is present exactly when some segment is a pair with that key. */
  lemma {:induction false} ParamsOfKeys(segments: seq<string>, key: string)
    ensures key in ParamsOf(segments) <==>
      exists i :: 0 <= i < |segments| && IsPair(segments[i]) && JavaSplit(segments[i], '=')[0] == key
    decreases |segments|
  {
    if segments != [] {
      var k := |segments| - 1;
      var init := segments[..k];
      ParamsOfKeys(init, key);
      var lastHas := IsPair(segments[k]) && JavaSplit(segments[k], '=')[0] == key;
      assert key in ParamsOf(segments) <==> key in ParamsOf(init) || lastHas;
      forall i | 0 <= i < k
        ensures init[i] == segments[i]
      {
      }
    }
  }

  /** The value of a key is the one from the last pair with that key. */
  lemma {:induction false} LastPairWins(segments: seq<string>, i: nat)
    requires i < |segments| && IsPair(segments[i])
    requires forall j :: i < j < |segments| && IsPair(segments[j]) ==>
      JavaSplit(segments[j], '=')[0] != JavaSplit(segments[i], '=')[0]
    ensures JavaSplit(segments[i], '=')[0] in ParamsOf(segments)
    ensures ParamsOf(segments)[JavaSplit(segments[i], '=')[0]] == JavaSplit(segments[i], '=')[1]
    decreases |segments|
  {
    var k := |segments| - 1;
    if i < k {
      var init := segments[..k];
      assert init[i] == segments[i];
      forall j | i < j < |init| && IsPair(init[j])
        ensures JavaSplit(init[j], '=')[0] != JavaSplit(init[i], '=')[0]
      {
        assert init[j] == segments[j];
      }
      LastPairWins(init, i);
    }
  }

  // Worked examples of `extractQueryParams`' segment handling. The general
  // properties are ParamsOfKeys and LastPairWins.

  /** Example: "a=" is dropped: Java drops the trailing empty piece, leaving one. */
  lemma EmptyValueDropped()
    ensures ParamsOf(["a="]) == map[]
  {
    assert ["a="][..0] == [];
  }

  /** Example: "a=b=c" splits into three pieces and is dropped. */
  lemma ThreePiecesDropped()
    ensures ParamsOf(["a=b=c"]) == map[]
  {
    assert ["a=b=c"][..0] == [];
  }

  /** Example: of two values for one key in a query string the later wins. */
  lemma QueryStringExample(inclusion: InclusionConfig)
    requires inclusion.queryParams
    ensures QueryParams(inclusion, Some("x=1&x=2")) == map["x" := "2"]
  {
    AmpersandSplit();
    LaterValueWins();
  }

  /** Example: "=b" is kept under the empty key. */
  lemma EmptyKeyKept()
    ensures ParamsOf(["=b"]) == map["" := "b"]
  {
    assert ["=b"][..0] == [];
    SplitPairOf("", "b", 0, '=');
    assert "" + ['='] + "b" + Repeat(['='], 0) == "=b";
  }

  /** Example: "a=b=" keeps "a" -> "b": the trailing empty piece is dropped. */
  lemma TrailingSeparatorIgnored()
    ensures ParamsOf(["a=b="]) == map["a" := "b"]
  {
    assert ["a=b="][..0] == [];
    SplitPairOf("a", "b", 1, '=');
    assert "a" + ['='] + "b" + Repeat(['='], 1) == "a=b=";
  }

  /** Example: the query string is cut at each '&'. */
  lemma AmpersandSplit()
    ensures JavaSplit("x=1&x=2", '&') == ["x=1", "x=2"]
  {
    SplitPairOf("x=1", "x=2", 0, '&');
    assert "x=1" + ['&'] + "x=2" + Repeat(['&'], 0) == "x=1&x=2";
  }

  /** "k=v" for a one-character key and value splits into [k, v]. */
  lemma PairSegment(k: string, v: string)
    requires |k| == 1 && |v| == 1 && k[0] != '=' && v[0] != '='
    ensures JavaSplit(k + "=" + v, '=') == [k, v]
  {
    SplitPairOf(k, v, 0, '=');
    assert k + ['='] + v + Repeat(['='], 0) == k + "=" + v;
  }

  /** One more segment is one more `put`, or nothing when it is not a pair. */
  lemma ParamsOfLast(init: seq<string>, last: string)
    ensures ParamsOf(init + [last]) ==
      if IsPair(last) then ParamsOf(init)[JavaSplit(last, '=')[0] := JavaSplit(last, '=')[1]] else ParamsOf(init)
  {
    assert (init + [last])[..|init|] == init;
  }

  /** Example: of two pairs with one key the later wins. */
  lemma LaterValueWins()
    ensures ParamsOf(["x=1", "x=2"]) == map["x" := "2"]
  {
    PairSegment("x", "1");
    assert "x" + "=" + "1" == "x=1";
    PairSegment("x", "2");
    assert "x" + "=" + "2" == "x=2";
    ParamsOfLast([], "x=1");
    assert [] + ["x=1"] == ["x=1"];
    ParamsOfLast(["x=1"], "x=2");
    assert ["x=1"] + ["x=2"] == ["x=1", "x=2"];
  }

  // ---------------------------------------------------------------------------
  // Headers

  /** The `headers.put(name, getHeader(name))` calls for the names, in order. */
  function PutHeaders(lines: seq<(string, string)>, names: seq<string>): map<string, string>
    requires forall n :: n in names ==> GetHeader(lines, n).Some?
    decreases |names|
  {
    if names == [] then map[]
    else
      var last := names[|names| - 1];
      PutHeaders(lines, names[..|names| - 1])[last := GetHeader(lines, last).value]
  }

  /** `extractHeaders(request)` as a value. */
  function Headers(inclusion: InclusionConfig, lines: seq<(string, string)>): (headers: map<string, string>)
    ensures !inclusion.headers ==> headers == map[]
  {
    if !inclusion.headers then map[]
    else
      NamedHeadersHaveValues(lines);
      PutHeaders(lines, HeaderNames(lines))
  }

  lemma {:induction false} PutHeadersContents(lines: seq<(string, string)>, names: seq<string>)
    requires forall n :: n in names ==> GetHeader(lines, n).Some?
    ensures forall n :: n in PutHeaders(lines, names) <==> n in names
    ensures forall n :: n in PutHeaders(lines, names) ==> PutHeaders(lines, names)[n] == GetHeader(lines, n).value
    decreases |names|
  {
    if names != [] {
      var init := names[..|names| - 1];
      assert forall n :: n in names <==> n in init || n == names[|names| - 1];
      PutHeadersContents(lines, init);
    }
  }

  /** Two spellings of one name find the same header. */
  lemma {:induction false} GetHeaderFolded(lines: seq<(string, string)>, a: string, b: string)
    requires Folded(a) == Folded(b)
    ensures GetHeader(lines, a) == GetHeader(lines, b)
    decreases |lines|
  {
    if lines != [] {
      GetHeaderFolded(lines[1..], a, b);
    }
  }

  /** With headers included there is one entry per enumerated header name, valued by
      `getHeader(name)`. */
  lemma HeadersExact(inclusion: InclusionConfig, lines: seq<(string, string)>)
    requires inclusion.headers
    ensures var h := Headers(inclusion, lines);
      && (forall n :: n in h <==> n in HeaderNames(lines))
      && (forall n :: n in h ==> Some(h[n]) == GetHeader(lines, n))
  {
    NamedHeadersHaveValues(lines);
    PutHeadersContents(lines, HeaderNames(lines));
  }

  /** Every header line of the request is represented by an entry under a spelling of
      its name, holding that name's first value. */
  lemma HeaderLineRepresented(inclusion: InclusionConfig, lines: seq<(string, string)>, i: nat)
    requires inclusion.headers && i < |lines|
    ensures var h := Headers(inclusion, lines);
      exists n :: n in h && Folded(n) == Folded(lines[i].0) && Some(h[n]) == GetHeader(lines, lines[i].0)
  {
    HeadersExact(inclusion, lines);
    HeaderNamesComplete(lines);
    var names := HeaderNames(lines);
    var h := Headers(inclusion, lines);
    assert Covers(names, lines[i].0);
    var j :| 0 <= j < |names| && Folded(names[j]) == Folded(lines[i].0);
    GetHeaderFolded(lines, names[j], lines[i].0);
    assert names[j] in h;
  }

  // ---------------------------------------------------------------------------
  // The request context

  /** The builder after `correlationId`, `method`, `path`, `headers`, `queryParams` and
      `startTime`: the request body is never set, the other fields keep their builder
      defaults. */
  function RequestContextOf(properties: LoggingProperties, request: HttpRequest, correlationId: string, startTime: Long): (c: RequestContext)
    ensures c.correlationId == correlationId && c.httpMethod == request.httpMethod && c.path == request.requestUri
    ensures c.requestBody.None? && c.responseBody.None? && c.executionTime.None?
    ensures c.startTime == startTime && c.endTime == 0 && c.statusCode == 0
  {
    RequestContext(correlationId, request.httpMethod, request.requestUri,
      Headers(properties.inclusion, request.headerLines), QueryParams(properties.inclusion, request.queryString),
      None, None, startTime, 0, None, 0)
  }

  /** The same builder completed after the call. */
  function ResponseContextOf(requestContext: RequestContext, responseBody: string, status: int, startTime: Long, endTime: Long): RequestContext {
    requestContext.(responseBody := Some(responseBody), statusCode := status, endTime := endTime,
                    executionTime := Some(FormatExecutionTime(startTime, endTime)))
  }

  /** The response context carries everything the request context had (correlation
      id, method, path, headers, query parameters, start time, no request body), its
      execution time is the formatted difference of the two timestamps. */
  lemma ResponseContextReusesBuilder(properties: LoggingProperties, request: HttpRequest, correlationId: string,
                                     body: string, status: int, startTime: Long, endTime: Long)
    ensures var c := RequestContextOf(properties, request, correlationId, startTime);
      var r := ResponseContextOf(c, body, status, startTime, endTime);
      && r.correlationId == c.correlationId && r.httpMethod == c.httpMethod && r.path == c.path
      && r.headers == c.headers && r.queryParams == c.queryParams && r.startTime == c.startTime
      && r.requestBody.None?
      && r.responseBody == Some(body) && r.statusCode == status && r.endTime == endTime
      && r.executionTime == Some(FormatExecutionTime(startTime, endTime))
  {
  }

  /** The request message never has a body segment: the request body is never set. */
  lemma RequestMessageHasNoBody(properties: LoggingProperties, request: HttpRequest, correlationId: string,
                                startTime: Long, render: map<string, string> -> string)
    ensures var c := RequestContextOf(properties, request, correlationId, startTime);
      RequestMessage(properties.inclusion, c, render) ==
        RequestMessage(properties.inclusion.(body := false), c, render)
  {
  }

  // ---------------------------------------------------------------------------
  // The advice

  /** What `proceed()` gives: the endpoint's result, or what it threw. */
  datatype Outcome = Returned(result: string) | Threw(thrown: Throwable)

  /** The intercepted endpoint: its outcome, and the status, content type and body bytes
      the response wrapper reports once it has run. */
  datatype Handler = Handler(outcome: Outcome, status: int, contentType: Option<string>, body: seq<bv8>)

  /** `RequestContextHolder.getRequestAttributes()`: servlet attributes carry the request
      and the (possibly null) response. */
  datatype RequestAttributes = OtherAttributes | ServletAttributes(request: Request, response: Option<Response>)

  const AspectError: Event := Log(AspectLogger, ERROR, "Error in logging aspect")

  /** The response wrapper as the handler leaves it. */
  function AfterHandler(response: Option<CachingResponse>, handler: Handler): (r: Option<CachingResponse>)
    ensures r.Some? <==> response.Some?
    ensures r.Some? ==>
      && r.value.http.status == handler.status && r.value.http.contentType == handler.contentType
      && r.value.cached == handler.body
      && r.value.http.characterEncoding == response.value.http.characterEncoding
  {
    match response
    case None => None
    case Some(w) => Some(CachingResponse(w.http.(status := handler.status, contentType := handler.contentType), handler.body))
  }

  /** What the `try` block leaves behind: its outcome, the events it logged and the
      patterns it compiled. */
  datatype Attempt = Attempt(outcome: Outcome, events: seq<Event>, compiled: set<string>)

  /** Events that only the logging utility writes. */
  predicate UtilityLines(events: seq<Event>) {
    forall ev :: ev in events ==> ev.Log? && ev.logger == UtilsLogger
  }

  /** The events of a completed response: at most two lines of the logging utility
      (the decoding warning and the response line), then the body copy. */
  predicate ResponseLines(events: seq<Event>) {
    && 1 <= |events| <= 3
    && events[|events| - 1] == BodyCopiedToResponse
    && forall i :: 0 <= i < |events| - 1 ==> events[i].Log? && events[i].logger == UtilsLogger
  }

  /** After the endpoint returned, with a response at hand: extract the response body,
      complete the builder, log the response and copy the cached body to the response. */
  function Responded(u: LoggingUtils, mdc: map<string, string>, profile: Option<string>, requestContext: RequestContext,
                     w: CachingResponse, handler: Handler, startTime: Long, endTime: Long): (a: Attempt)
    requires ValidEngine(u.engine) && handler.outcome.Returned?
    ensures a.outcome.Returned? ==> a.outcome == handler.outcome
    ensures a.outcome.Returned? ==> ResponseLines(a.events)
    ensures a.outcome.Threw? ==> UtilityLines(a.events) && IsException(a.outcome.thrown)
  {
    var body := ExtractedBody(u.properties.inclusion, w.http.contentType, w.cached, u.decode(w.cached, w.http.characterEncoding));
    var warned := if body.1 then [ResponseBodyWarning] else [];
    var responseContext := ResponseContextOf(requestContext, body.0, w.http.status, startTime, endTime);
    var answered := Emit(u.properties, u.engine, mdc, profile, ResponseMessage(u.properties.inclusion, responseContext));
    var lines := warned + answered.events;
    if answered.thrown.Some? then Attempt(Threw(answered.thrown.value), lines, answered.compiled)
    else
      var all := lines + [BodyCopiedToResponse];
      assert forall i :: 0 <= i < |lines| ==> all[i] == lines[i];
      Attempt(handler.outcome, all, answered.compiled)
  }

  /** `joinPoint.proceed()` and what follows it in the `try` block. A null response is
      only noticed here, after the endpoint has run. */
  function Proceeded(u: LoggingUtils, mdc: map<string, string>, profile: Option<string>, requestContext: RequestContext,
                     response: Option<CachingResponse>, handler: Handler, startTime: Long, endTime: Long): (a: Attempt)
    requires ValidEngine(u.engine)
    ensures handler.outcome.Threw? ==> a == Attempt(handler.outcome, [], {})
    ensures handler.outcome.Returned? && response.None? ==> a == Attempt(Threw(NullPointer), [], {})
    ensures a.outcome.Returned? ==> a.outcome == handler.outcome && ResponseLines(a.events)
    ensures handler.outcome.Returned? && a.outcome.Threw? ==> UtilityLines(a.events) && IsException(a.outcome.thrown)
  {
    match handler.outcome
    case Threw(_) => Attempt(handler.outcome, [], {})
    case Returned(_) =>
      match AfterHandler(response, handler)
      case None => Attempt(Threw(NullPointer), [], {})
      case Some(w) => Responded(u, mdc, profile, requestContext, w, handler, startTime, endTime)
  }

  /** The `try` block of `logRequestResponse`, up to the first throwable. `mdc` is the
      MDC once the correlation id is in it. */
  function TryBlock(properties: LoggingProperties, u: LoggingUtils, mdc: map<string, string>, profile: Option<string>,
                    request: CachingRequest, response: Option<CachingResponse>, correlationId: string,
                    handler: Handler, startTime: Long, endTime: Long): (a: Attempt)
    requires ValidEngine(u.engine)
  {
    LoggedAndProceeded(u, mdc, profile, RequestContextOf(properties, request.http, correlationId, startTime),
                       response, handler, startTime, endTime)
  }

  /** The `try` block from `logRequest` on, for the built request context. */
  function LoggedAndProceeded(u: LoggingUtils, mdc: map<string, string>, profile: Option<string>, requestContext: RequestContext,
                              response: Option<CachingResponse>, handler: Handler, startTime: Long, endTime: Long): (a: Attempt)
    requires ValidEngine(u.engine)
  {
    var logged := Emit(u.properties, u.engine, mdc, profile, RequestMessage(u.properties.inclusion, requestContext, u.render));
    if logged.thrown.Some? then Attempt(Threw(logged.thrown.value), logged.events, logged.compiled)
    else
      var rest := Proceeded(u, mdc, profile, requestContext, response, handler, startTime, endTime);
      Attempt(rest.outcome, logged.events + [HandlerInvoked] + rest.events, logged.compiled + rest.compiled)
  }

  /** The events of the `try` block never include the advice's own error log; the
      endpoint has run exactly once if it ran at all; a result is the endpoint's own; an
      exception thrown by the endpoint is what the block ends with, and any other
      throwable from the block is an exception of the logging itself. */
  lemma TryBlockShape(u: LoggingUtils, mdc: map<string, string>, profile: Option<string>, requestContext: RequestContext,
                      response: Option<CachingResponse>, handler: Handler, startTime: Long, endTime: Long)
    requires ValidEngine(u.engine)
    ensures var a := LoggedAndProceeded(u, mdc, profile, requestContext, response, handler, startTime, endTime);
      && AspectError !in a.events
      && (a.outcome.Returned? ==> a.outcome == handler.outcome)
      && (handler.outcome.Threw? ==> a.outcome.Threw?)
      && (handler.outcome.Threw? && HandlerInvoked in a.events ==> a.outcome == handler.outcome)
      && (a.outcome.Threw? && a.outcome != handler.outcome ==> IsException(a.outcome.thrown))
  {
    var logged := Emit(u.properties, u.engine, mdc, profile, RequestMessage(u.properties.inclusion, requestContext, u.render));
    if logged.thrown.None? {
      var rest := Proceeded(u, mdc, profile, requestContext, response, handler, startTime, endTime);
      assert AspectError !in rest.events;
    }
  }

  /** Everything one call of the advice leaves behind. */
  datatype Interception = Interception(outcome: Outcome, events: seq<Event>, mdc: map<string, string>, compiled: set<string>)

  /** `logRequestResponse(joinPoint)`. `generatedId` is the id `UUID.randomUUID()`
      would give, `startTime` and `endTime` the two clock readings, `profile` the
      `spring.profiles.active` system property. */
  function Intercept(properties: LoggingProperties, u: LoggingUtils, mdc: map<string, string>, profile: Option<string>,
                     attributes: RequestAttributes, handler: Handler, startTime: Long, endTime: Long, generatedId: string): (r: Interception)
    requires ValidEngine(u.engine)
  {
    if !properties.enabled || attributes.OtherAttributes? then Interception(handler.outcome, [HandlerInvoked], mdc, {})
    else
      var request := WrapRequest(attributes.request);
      var response := WrapResponse(attributes.response);
      var correlationId := CorrelationId(GetHeader(request.http.headerLines, CorrelationIdHeader), generatedId);
      var inContext := mdc[CorrelationIdMdcKey := correlationId];
      var a := TryBlock(properties, u, inContext, profile, request, response, correlationId, handler, startTime, endTime);
      var caught := if a.outcome.Threw? && IsException(a.outcome.thrown) then [AspectError] else [];
      Interception(a.outcome, a.events + caught, inContext - {CorrelationIdMdcKey}, a.compiled)
  }

  /** With logging off, or outside a servlet request, the endpoint runs as if there were
      no advice: nothing is wrapped, logged, cached or put into the MDC. */
  lemma BypassIsTransparent(properties: LoggingProperties, u: LoggingUtils, mdc: map<string, string>, profile: Option<string>,
                            attributes: RequestAttributes, handler: Handler, startTime: Long, endTime: Long, generatedId: string)
    requires ValidEngine(u.engine)
    requires !properties.enabled || attributes.OtherAttributes?
    ensures Intercept(properties, u, mdc, profile, attributes, handler, startTime, endTime, generatedId)
      == Interception(handler.outcome, [HandlerInvoked], mdc, {})
  {
  }

  /** Past the gates, the correlation id is removed from the MDC on every way out
      (normal return, an exception from the endpoint, or one from the logging itself),
      and nothing else in the MDC changes. */
  lemma ContextClearedOnEveryExit(properties: LoggingProperties, u: LoggingUtils, mdc: map<string, string>, profile: Option<string>,
                                  attributes: RequestAttributes, handler: Handler, startTime: Long, endTime: Long, generatedId: string)
    requires ValidEngine(u.engine)
    requires properties.enabled && attributes.ServletAttributes?
    ensures Intercept(properties, u, mdc, profile, attributes, handler, startTime, endTime, generatedId).mdc
      == mdc - {CorrelationIdMdcKey}
  {
    var id := CorrelationId(GetHeader(WrapRequest(attributes.request).http.headerLines, CorrelationIdHeader), generatedId);
    assert mdc[CorrelationIdMdcKey := id] - {CorrelationIdMdcKey} == mdc - {CorrelationIdMdcKey};
  }

  /** Past the gates: an exception is rethrown as it is and the advice's last line is its
      error log; a throwable that is not an Exception is rethrown without that log; a
      result is returned unchanged. Once the endpoint has run and thrown, its throwable is
      what escapes. */
  lemma ExceptionsLoggedAndRethrown(properties: LoggingProperties, u: LoggingUtils, mdc: map<string, string>, profile: Option<string>,
                                    attributes: RequestAttributes, handler: Handler, startTime: Long, endTime: Long, generatedId: string)
    requires ValidEngine(u.engine)
    requires properties.enabled && attributes.ServletAttributes?
    ensures var r := Intercept(properties, u, mdc, profile, attributes, handler, startTime, endTime, generatedId);
      && (r.outcome.Returned? ==> r.outcome == handler.outcome && AspectError !in r.events)
      && (r.outcome.Threw? && IsException(r.outcome.thrown) ==> r.events != [] && r.events[|r.events| - 1] == AspectError)
      && (r.outcome.Threw? && !IsException(r.outcome.thrown) ==> r.outcome == handler.outcome && AspectError !in r.events)
      && (handler.outcome.Threw? ==> r.outcome.Threw?)
      && (handler.outcome.Threw? && HandlerInvoked in r.events ==> r.outcome == handler.outcome)
  {
    var request := WrapRequest(attributes.request);
    var response := WrapResponse(attributes.response);
    var id := CorrelationId(GetHeader(request.http.headerLines, CorrelationIdHeader), generatedId);
    var inContext := mdc[CorrelationIdMdcKey := id];
    TryBlockShape(u, inContext, profile, RequestContextOf(properties, request.http, id, startTime), response, handler, startTime, endTime);
  }

  /** The events of a response that completed: the decoding warning (if any), the
      response message's emission, which did not throw, and the body copy. */
  lemma RespondedEvents(u: LoggingUtils, mdc: map<string, string>, profile: Option<string>, requestContext: RequestContext,
                        w: CachingResponse, handler: Handler, startTime: Long, endTime: Long)
    requires ValidEngine(u.engine) && handler.outcome.Returned?
    requires Responded(u, mdc, profile, requestContext, w, handler, startTime, endTime).outcome.Returned?
    ensures var body := ExtractedBody(u.properties.inclusion, w.http.contentType, w.cached, u.decode(w.cached, w.http.characterEncoding));
      var responseContext := ResponseContextOf(requestContext, body.0, w.http.status, startTime, endTime);
      var answered := Emit(u.properties, u.engine, mdc, profile, ResponseMessage(u.properties.inclusion, responseContext));
      && answered.thrown.None?
      && Responded(u, mdc, profile, requestContext, w, handler, startTime, endTime).events
         == (if body.1 then [ResponseBodyWarning] else []) + answered.events + [BodyCopiedToResponse]
  {
  }

  /** A completed `try` block: the request message's emission, the endpoint, the
      decoding warning (if decoding failed), the response message's emission, and the
      body copy last. The response message reports the status, content type and body the
      endpoint left in the wrapper, and neither emission threw. */
  lemma CompletedBlockOrder(u: LoggingUtils, mdc: map<string, string>, profile: Option<string>, requestContext: RequestContext,
                            response: Option<CachingResponse>, handler: Handler, startTime: Long, endTime: Long)
    requires ValidEngine(u.engine)
    requires LoggedAndProceeded(u, mdc, profile, requestContext, response, handler, startTime, endTime).outcome.Returned?
    ensures response.Some? && handler.outcome.Returned?
    ensures var a := LoggedAndProceeded(u, mdc, profile, requestContext, response, handler, startTime, endTime);
      var request := Emit(u.properties, u.engine, mdc, profile, RequestMessage(u.properties.inclusion, requestContext, u.render));
      var body := ExtractedBody(u.properties.inclusion, handler.contentType, handler.body,
                                u.decode(handler.body, response.value.http.characterEncoding));
      var responseContext := ResponseContextOf(requestContext, body.0, handler.status, startTime, endTime);
      var answered := Emit(u.properties, u.engine, mdc, profile, ResponseMessage(u.properties.inclusion, responseContext));
      && request.thrown.None? && answered.thrown.None?
      && a.events == request.events + [HandlerInvoked] + (if body.1 then [ResponseBodyWarning] else [])
                       + answered.events + [BodyCopiedToResponse]
  {
    var logged := Emit(u.properties, u.engine, mdc, profile, RequestMessage(u.properties.inclusion, requestContext, u.render));
    assert logged.thrown.None?;
    var w := AfterHandler(response, handler).value;
    var rest := Responded(u, mdc, profile, requestContext, w, handler, startTime, endTime);
    assert Proceeded(u, mdc, profile, requestContext, response, handler, startTime, endTime) == rest;
    RespondedEvents(u, mdc, profile, requestContext, w, handler, startTime, endTime);
    var body := ExtractedBody(u.properties.inclusion, w.http.contentType, w.cached, u.decode(w.cached, w.http.characterEncoding));
    var warned := if body.1 then [ResponseBodyWarning] else [];
    var answered := Emit(u.properties, u.engine, mdc, profile,
                         ResponseMessage(u.properties.inclusion, ResponseContextOf(requestContext, body.0, w.http.status, startTime, endTime)));
    var head := logged.events + [HandlerInvoked];
    AppendAssoc(head, warned, answered.events);
    AppendAssoc(head, warned + answered.events, [BodyCopiedToResponse]);
    assert LoggedAndProceeded(u, mdc, profile, requestContext, response, handler, startTime, endTime).events
      == head + rest.events;
  }

  /** Where the lines sit in a completed block's events. */
  lemma FramedEvents(first: Event, warned: seq<Event>, last: Event, events: seq<Event>)
    requires events == [first] + [HandlerInvoked] + warned + [last] + [BodyCopiedToResponse]
    ensures |events| == |warned| + 4
    ensures events[0] == first && events[1] == HandlerInvoked
    ensures events[|events| - 2] == last && events[|events| - 1] == BodyCopiedToResponse
  {
  }

  /** With logging on for the current MDC, a completed `try` block starts with the
      masked request message, then the endpoint, and ends with the masked response
      message followed by the body copy, both lines at the resolved level. */
  lemma MessagesAroundEndpoint(u: LoggingUtils, mdc: map<string, string>, profile: Option<string>, requestContext: RequestContext,
                               response: Option<CachingResponse>, handler: Handler, startTime: Long, endTime: Long)
    requires ValidEngine(u.engine)
    requires LoggedAndProceeded(u, mdc, profile, requestContext, response, handler, startTime, endTime).outcome.Returned?
    requires LoggingEnabled(u.properties, u.engine, mdc) == Success(true)
    ensures response.Some?
    ensures var a := LoggedAndProceeded(u, mdc, profile, requestContext, response, handler, startTime, endTime);
      var level := DetermineLogLevel(u.properties.environments, profile);
      var requestMasked := Mask(u.engine, RequestMessage(u.properties.inclusion, requestContext, u.render), u.properties.maskPatterns);
      var body := ExtractedBody(u.properties.inclusion, handler.contentType, handler.body,
                                u.decode(handler.body, response.value.http.characterEncoding));
      var responseContext := ResponseContextOf(requestContext, body.0, handler.status, startTime, endTime);
      var responseMasked := Mask(u.engine, ResponseMessage(u.properties.inclusion, responseContext), u.properties.maskPatterns);
      && requestMasked.Success? && responseMasked.Success?
      && |a.events| == (if body.1 then 5 else 4)
      && a.events[0] == Log(UtilsLogger, level, requestMasked.value)
      && a.events[1] == HandlerInvoked
      && a.events[|a.events| - 2] == Log(UtilsLogger, level, responseMasked.value)
      && a.events[|a.events| - 1] == BodyCopiedToResponse
  {
    CompletedBlockOrder(u, mdc, profile, requestContext, response, handler, startTime, endTime);
    var requestMessage := RequestMessage(u.properties.inclusion, requestContext, u.render);
    EmittedLine(u.properties, u.engine, mdc, profile, requestMessage);
    var body := ExtractedBody(u.properties.inclusion, handler.contentType, handler.body,
                              u.decode(handler.body, response.value.http.characterEncoding));
    var responseMessage := ResponseMessage(u.properties.inclusion, ResponseContextOf(requestContext, body.0, handler.status, startTime, endTime));
    EmittedLine(u.properties, u.engine, mdc, profile, responseMessage);
    var level := DetermineLogLevel(u.properties.environments, profile);
    var requestMasked := Mask(u.engine, requestMessage, u.properties.maskPatterns);
    var responseMasked := Mask(u.engine, responseMessage, u.properties.maskPatterns);
    FramedEvents(Log(UtilsLogger, level, requestMasked.value), if body.1 then [ResponseBodyWarning] else [],
                 Log(UtilsLogger, level, responseMasked.value),
                 LoggedAndProceeded(u, mdc, profile, requestContext, response, handler, startTime, endTime).events);
  }

  /** On success past the gates: the request message's emission, the endpoint, the
      decoding warning (if any), the response message's emission and the body copy,
      in that order, all with the correlation id in the MDC. */
  lemma SuccessOrder(properties: LoggingProperties, u: LoggingUtils, mdc: map<string, string>, profile: Option<string>,
                     attributes: RequestAttributes, handler: Handler, startTime: Long, endTime: Long, generatedId: string)
    requires ValidEngine(u.engine)
    requires properties.enabled && attributes.ServletAttributes?
    requires Intercept(properties, u, mdc, profile, attributes, handler, startTime, endTime, generatedId).outcome.Returned?
    ensures attributes.response.Some? && handler.outcome.Returned?
    ensures var r := Intercept(properties, u, mdc, profile, attributes, handler, startTime, endTime, generatedId);
      var request := WrapRequest(attributes.request);
      var id := CorrelationId(GetHeader(request.http.headerLines, CorrelationIdHeader), generatedId);
      var inContext := mdc[CorrelationIdMdcKey := id];
      var requestContext := RequestContextOf(properties, request.http, id, startTime);
      var encoding := WrapResponse(attributes.response).value.http.characterEncoding;
      var body := ExtractedBody(u.properties.inclusion, handler.contentType, handler.body, u.decode(handler.body, encoding));
      var responseContext := ResponseContextOf(requestContext, body.0, handler.status, startTime, endTime);
      r.events == Emit(u.properties, u.engine, inContext, profile, RequestMessage(u.properties.inclusion, requestContext, u.render)).events
                  + [HandlerInvoked] + (if body.1 then [ResponseBodyWarning] else [])
                  + Emit(u.properties, u.engine, inContext, profile, ResponseMessage(u.properties.inclusion, responseContext)).events
                  + [BodyCopiedToResponse]
  {
    var request := WrapRequest(attributes.request);
    var response := WrapResponse(attributes.response);
    var id := CorrelationId(GetHeader(request.http.headerLines, CorrelationIdHeader), generatedId);
    var inContext := mdc[CorrelationIdMdcKey := id];
    CompletedBlockOrder(u, inContext, profile, RequestContextOf(properties, request.http, id, startTime), response, handler, startTime, endTime);
    var a := TryBlock(properties, u, inContext, profile, request, response, id, handler, startTime, endTime);
    AppendEmpty(a.events);
  }

  /** A null response is dereferenced only after the endpoint has run: a call whose
      endpoint returned normally then fails with a NullPointerException, logged and
      rethrown, the endpoint's result is lost and nothing is copied. */
  lemma NullResponseFailsAfterHandler(properties: LoggingProperties, u: LoggingUtils, mdc: map<string, string>, profile: Option<string>,
                                      request: Request, handler: Handler, startTime: Long, endTime: Long, generatedId: string)
    requires ValidEngine(u.engine)
    requires properties.enabled && handler.outcome.Returned?
    ensures var r := Intercept(properties, u, mdc, profile, ServletAttributes(request, None), handler, startTime, endTime, generatedId);
      && r.outcome.Threw? && IsException(r.outcome.thrown)
      && (HandlerInvoked in r.events ==> r.outcome == Threw(NullPointer))
      && BodyCopiedToResponse !in r.events
      && r.events != [] && r.events[|r.events| - 1] == AspectError
  {
    var w := WrapRequest(request);
    var id := CorrelationId(GetHeader(w.http.headerLines, CorrelationIdHeader), generatedId);
    var inContext := mdc[CorrelationIdMdcKey := id];
    var requestContext := RequestContextOf(properties, w.http, id, startTime);
    var logged := Emit(u.properties, u.engine, inContext, profile, RequestMessage(u.properties.inclusion, requestContext, u.render));
    assert HandlerInvoked !in logged.events && BodyCopiedToResponse !in logged.events;
  }

  class RequestResponseLoggingAspect {
    const utils: LoggingUtils
    const properties: LoggingProperties

    constructor(utils: LoggingUtils, properties: LoggingProperties)
      ensures this.utils == utils && this.properties == properties
    {
      this.utils := utils;
      this.properties := properties;
    }

    /** `extractQueryParams(request)`. */
    method ExtractQueryParams(request: HttpRequest) returns (params: map<string, string>)
      ensures params == QueryParams(properties.inclusion, request.queryString)
    {
      if !properties.inclusion.queryParams || request.queryString.None? {
        return map[];
      }
      var segments := JavaSplit(request.queryString.value, '&');
      params := map[];
      var i := 0;
      while i < |segments|
        invariant 0 <= i <= |segments|
        invariant params == ParamsOf(segments[..i])
      {
        PrefixOfPrefix(segments, i);
        var pair := JavaSplit(segments[i], '=');
        if |pair| == 2 {
          params := params[pair[0] := pair[1]];
        }
        i := i + 1;
      }
      WholePrefix(segments);
    }

    /** `extractHeaders(request)`. */
    method ExtractHeaders(request: HttpRequest) returns (headers: map<string, string>)
      ensures headers == Headers(properties.inclusion, request.headerLines)
    {
      if !properties.inclusion.headers {
        return map[];
      }
      var lines := request.headerLines;
      var names := HeaderNames(lines);
      NamedHeadersHaveValues(lines);
      headers := map[];
      var i := 0;
      while i < |names|
        invariant 0 <= i <= |names|
        invariant headers == PutHeaders(lines, names[..i])
      {
        PrefixOfPrefix(names, i);
        headers := headers[names[i] := GetHeader(lines, names[i]).value];
        i := i + 1;
      }
      WholePrefix(names);
    }

    /** `logRequestResponse(joinPoint)`: the outcome and the new MDC, log and cache are
        those of `Intercept`. */
    method LogRequestResponse(attributes: RequestAttributes, handler: Handler, startTime: Long, endTime: Long, generatedId: string)
      returns (outcome: Outcome)
      requires utils.Valid()
      modifies utils`patternCache, utils.host`mdc, utils.host`events
      ensures utils.Valid()
      ensures var r := Intercept(properties, utils, old(utils.host.mdc), utils.host.activeProfile,
                                 attributes, handler, startTime, endTime, generatedId);
        && outcome == r.outcome
        && utils.host.events == old(utils.host.events) + r.events
        && utils.host.mdc == r.mdc
        && utils.patternCache.Keys == old(utils.patternCache.Keys) + r.compiled
    {
      var host := utils.host;
      if !properties.enabled || attributes.OtherAttributes? {
        host.events := host.events + [HandlerInvoked];
        return handler.outcome;
      }
      ghost var r := Intercept(properties, utils, host.mdc, host.activeProfile, attributes, handler, startTime, endTime, generatedId);
      var requestWrapper := WrapRequest(attributes.request);
      var responseWrapper := WrapResponse(attributes.response);
      var correlationId := utils.InitializeContext(requestWrapper, generatedId);
      ghost var a := TryBlock(properties, utils, host.mdc, host.activeProfile, requestWrapper, responseWrapper,
                              correlationId, handler, startTime, endTime);
      assert r.events == a.events + (if a.outcome.Threw? && IsException(a.outcome.thrown) then [AspectError] else []);
      ghost var start := host.events;
      outcome := RunTryBlock(requestWrapper, responseWrapper, correlationId, handler, startTime, endTime);
      if outcome.Threw? && IsException(outcome.thrown) {
        host.events := host.events + [AspectError];
        AppendAssoc(start, a.events, [AspectError]);
      } else {
        AppendEmpty(a.events);
      }
      utils.ClearContext();
    }

    /** The builder calls before `build()`: the request body, response body, end time,
        execution time and status keep their defaults. */
    method BuildRequestContext(request: HttpRequest, correlationId: string, startTime: Long) returns (c: RequestContext)
      ensures c == RequestContextOf(properties, request, correlationId, startTime)
    {
      var headers := ExtractHeaders(request);
      var queryParams := ExtractQueryParams(request);
      c := RequestContext(correlationId, request.httpMethod, request.requestUri, headers, queryParams,
                          None, None, startTime, 0, None, 0);
    }

    /** The `try` block. */
    method RunTryBlock(request: CachingRequest, response: Option<CachingResponse>, correlationId: string,
                       handler: Handler, startTime: Long, endTime: Long) returns (outcome: Outcome)
      requires utils.Valid()
      modifies utils`patternCache, utils.host`events
      ensures utils.Valid()
      ensures var a := TryBlock(properties, utils, utils.host.mdc, utils.host.activeProfile,
                                request, response, correlationId, handler, startTime, endTime);
        && outcome == a.outcome
        && utils.host.events == old(utils.host.events) + a.events
        && utils.patternCache.Keys == old(utils.patternCache.Keys) + a.compiled
    {
      var requestContext := BuildRequestContext(request.http, correlationId, startTime);
      outcome := LogAndProceed(requestContext, response, handler, startTime, endTime);
    }

    /** `logRequest` and the rest of the `try` block. */
    method LogAndProceed(requestContext: RequestContext, response: Option<CachingResponse>,
                         handler: Handler, startTime: Long, endTime: Long) returns (outcome: Outcome)
      requires utils.Valid()
      modifies utils`patternCache, utils.host`events
      ensures utils.Valid()
      ensures var a := LoggedAndProceeded(utils, utils.host.mdc, utils.host.activeProfile, requestContext, response, handler, startTime, endTime);
        && outcome == a.outcome
        && utils.host.events == old(utils.host.events) + a.events
        && utils.patternCache.Keys == old(utils.patternCache.Keys) + a.compiled
    {
      ghost var mdc, profile := utils.host.mdc, utils.host.activeProfile;
      ghost var em := Emit(utils.properties, utils.engine, mdc, profile,
                           RequestMessage(utils.properties.inclusion, requestContext, utils.render));
      ghost var rest := Proceeded(utils, mdc, profile, requestContext, response, handler, startTime, endTime);
      ghost var a := LoggedAndProceeded(utils, mdc, profile, requestContext, response, handler, startTime, endTime);
      ghost var start := utils.host.events;
      var thrown := utils.LogRequest(requestContext);
      if thrown.Some? {
        return Threw(thrown.value);
      }
      assert a == Attempt(rest.outcome, em.events + [HandlerInvoked] + rest.events, em.compiled + rest.compiled);
      utils.host.events := utils.host.events + [HandlerInvoked];
      outcome := Proceed(requestContext, response, handler, startTime, endTime);
      AppendAssoc(start, em.events, [HandlerInvoked]);
      AppendAssoc(start, em.events + [HandlerInvoked], rest.events);
    }

    /** `joinPoint.proceed()` and the rest of the `try` block. */
    method Proceed(requestContext: RequestContext, response: Option<CachingResponse>,
                   handler: Handler, startTime: Long, endTime: Long) returns (outcome: Outcome)
      requires utils.Valid()
      modifies utils`patternCache, utils.host`events
      ensures utils.Valid()
      ensures var a := Proceeded(utils, utils.host.mdc, utils.host.activeProfile, requestContext, response, handler, startTime, endTime);
        && outcome == a.outcome
        && utils.host.events == old(utils.host.events) + a.events
        && utils.patternCache.Keys == old(utils.patternCache.Keys) + a.compiled
    {
      if handler.outcome.Threw? {
        return handler.outcome;
      }
      var written := AfterHandler(response, handler);
      if written.None? {
        var body := utils.ExtractResponseBody(written);
        assert utils.host.events == old(utils.host.events) + [];
        return Threw(body.error);
      }
      outcome := Respond(requestContext, written.value, handler, startTime, endTime);
    }

    /** The response half of the `try` block, once the endpoint has returned. */
    method Respond(requestContext: RequestContext, w: CachingResponse, handler: Handler, startTime: Long, endTime: Long)
      returns (outcome: Outcome)
      requires utils.Valid() && handler.outcome.Returned?
      modifies utils`patternCache, utils.host`events
      ensures utils.Valid()
      ensures var a := Responded(utils, utils.host.mdc, utils.host.activeProfile, requestContext, w, handler, startTime, endTime);
        && outcome == a.outcome
        && utils.host.events == old(utils.host.events) + a.events
        && utils.patternCache.Keys == old(utils.patternCache.Keys) + a.compiled
    {
      ghost var x := ExtractedBody(utils.properties.inclusion, w.http.contentType, w.cached, utils.decode(w.cached, w.http.characterEncoding));
      ghost var warned := if x.1 then [ResponseBodyWarning] else [];
      ghost var start := utils.host.events;
      var body := utils.ExtractResponseBody(Some(w));
      var responseContext := ResponseContextOf(requestContext, body.value, w.http.status, startTime, endTime);
      ghost var em := Emit(utils.properties, utils.engine, utils.host.mdc, utils.host.activeProfile,
                           ResponseMessage(utils.properties.inclusion, responseContext));
      var thrown := utils.LogResponse(responseContext);
      AppendAssoc(start, warned, em.events);
      if thrown.Some? {
        return Threw(thrown.value);
      }
      utils.host.events := utils.host.events + [BodyCopiedToResponse];
      outcome := handler.outcome;
      AppendAssoc(start, warned + em.events, [BodyCopiedToResponse]);
    }
  }
}
