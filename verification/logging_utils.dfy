/**
 * The helpers the interceptor calls (`LoggingUtils`): correlation id and MDC handling,
 * the enabled / excluded-path gate, environment-to-level resolution, body extraction
 * behind a content-type gate, elapsed-time formatting, the two message builders, and
 * this class's own masker (case-sensitive patterns, a "$1" back-reference template,
 * no per-rule error handling), which is the one the pipeline uses.
 */
module LoggingUtilities {
  import opened Wrappers
  import opened Sequences
  import opened Text
  import opened LogLevels
  import opened Models
  import opened Properties
  import opened Regex
  import opened Runtime
  import opened Servlet

  const CorrelationIdHeader: string := "X-Correlation-ID"
  const CorrelationIdMdcKey: string := "correlationId"
  const RequestUriMdcKey: string := "requestUri"
  const DefaultEnvironment: string := "default"
  const ApplicationJson: string := "application/json"
  const ApplicationXml: string := "application/xml"
  const TextPlain: string := "text/plain"
  const ErrorExtractingBody: string := "[Error extracting body]"

  const TwoTo63: int := 0x8000_0000_0000_0000
  const TwoTo64: int := 0x1_0000_0000_0000_0000

  /** `MDC.get(key)`. */
  function MdcGet(mdc: map<string, string>, key: string): (r: Option<string>)
    ensures r.Some? <==> key in mdc
  {
    if key in mdc then Some(mdc[key]) else None
  }

  // ---------------------------------------------------------------------------
  // Elapsed time

  /** `endTime - startTime` in Java `long` arithmetic: the true difference reduced
      into the 64-bit two's-complement range. */
  function ElapsedMillis(startTime: Long, endTime: Long): (d: Long)
    ensures (d as int - (endTime as int - startTime as int)) % TwoTo64 == 0
  {
    var m := (endTime as int - startTime as int + TwoTo63) % TwoTo64;
    (m - TwoTo63) as Long
  }

  /** Without overflow the difference is exact. */
  lemma ElapsedExact(startTime: Long, endTime: Long)
    requires -TwoTo63 <= endTime as int - startTime as int < TwoTo63
    ensures ElapsedMillis(startTime, endTime) as int == endTime as int - startTime as int
  {
  }

  /** `formatExecutionTime(start, end)`: below one second the (possibly negative)
      millisecond count followed by "ms", otherwise the whole seconds, truncated,
      followed by "s". */
  function FormatExecutionTime(startTime: Long, endTime: Long): string {
    var d := ElapsedMillis(startTime, endTime) as int;
    if d < 1000 then IntToDecimal(d) + "ms" else IntToDecimal(d / 1000) + "s"
  }

  /** Read back, the number in the rendered time is exactly the elapsed count (or
      its whole seconds), and the unit follows it. */
  lemma FormatExecutionTimeReadsBack(startTime: Long, endTime: Long)
    ensures var r := FormatExecutionTime(startTime, endTime);
      var d := ElapsedMillis(startTime, endTime) as int;
      && (d < 1000 ==> |r| > 2 && r[|r| - 2..] == "ms" && ParseDecimal(r[..|r| - 2]) == Some(d))
      && (d >= 1000 ==>
            |r| > 1 && r[|r| - 1] == 's' && IsDigit(r[|r| - 2]) && ParseDecimal(r[..|r| - 1]) == Some(d / 1000))
  {
    var d := ElapsedMillis(startTime, endTime) as int;
    var n := if d < 1000 then d else d / 1000;
    var number := IntToDecimal(n);
    DecimalRoundTrip(n);
    DecimalEndsInDigit(n);
    var r := FormatExecutionTime(startTime, endTime);
    assert r[..|number|] == number;
  }

  lemma FormatExecutionTimeExamples()
    ensures FormatExecutionTime(0, 999) == "999ms"
    ensures FormatExecutionTime(0, 2500) == "2s"
    ensures FormatExecutionTime(0, 1000) == "1s"
    ensures FormatExecutionTime(5, 0) == "-5ms"
  {
    ElapsedExact(0, 999);
    ElapsedExact(0, 2500);
    ElapsedExact(0, 1000);
    ElapsedExact(5, 0);
    assert Digits(999) == "999" by {
      assert Digits(99) == "99" by {
        assert Digits(9) == "9";
      }
    }
    assert Digits(2) == "2";
    assert Digits(1) == "1";
    assert Digits(5) == "5";
  }

  /** The subtraction wraps around like Java's: from the largest `long` to the
      smallest is one millisecond. */
  lemma FormatExecutionTimeWraps()
    ensures FormatExecutionTime(0x7FFF_FFFF_FFFF_FFFF, -0x8000_0000_0000_0000) == "1ms"
  {
    assert ElapsedMillis(0x7FFF_FFFF_FFFF_FFFF, -0x8000_0000_0000_0000) == 1;
    assert Digits(1) == "1";
  }

  // ---------------------------------------------------------------------------
  // Level resolution

  /** `determineLogLevel()`: the level configured for the active profile, the profile
      being "default" when the system property is not set, and INFO when that profile
      has no entry. */
  function DetermineLogLevel(environments: map<string, EnvironmentConfig>, activeProfile: Option<string>): (level: LogLevel)
    ensures level == INFO || exists k :: k in environments && environments[k].level == level
  {
    var key := activeProfile.GetOr(DefaultEnvironment);
    if key in environments then environments[key].level else INFO
  }

  /** The configured level wins for the active profile (or "default" when none is
      active); an unconfigured profile gets INFO, so with the builder's empty
      environment map every profile gets INFO. */
  lemma LevelResolution(environments: map<string, EnvironmentConfig>, profile: string, enabled: bool)
    ensures profile in environments ==> DetermineLogLevel(environments, Some(profile)) == environments[profile].level
    ensures profile !in environments ==> DetermineLogLevel(environments, Some(profile)) == INFO
    ensures DetermineLogLevel(environments, None) == DetermineLogLevel(environments, Some(DefaultEnvironment))
    ensures DetermineLogLevel(BuilderDefaults(enabled).environments, Some(profile)) == INFO
    ensures DetermineLogLevel(BuilderDefaults(enabled).environments, None) == INFO
  {
  }

  // ---------------------------------------------------------------------------
  // Bodies

  /** `shouldLogBody(contentType)`: body logging on, and a content type naming JSON,
      XML or plain text anywhere in it. */
  predicate ShouldLogBody(inclusion: InclusionConfig, contentType: Option<string>) {
    && inclusion.body
    && contentType.Some?
    && (Contains(contentType.value, ApplicationJson)
        || Contains(contentType.value, ApplicationXml)
        || Contains(contentType.value, TextPlain))
  }

  /** The gate looks for the media type anywhere in the header: parameters after it or
      text before it do not switch body logging off. */
  lemma ShouldLogBodyIgnoresSurroundings(inclusion: InclusionConfig, before: string, contentType: string, after: string)
    requires ShouldLogBody(inclusion, Some(contentType))
    ensures ShouldLogBody(inclusion, Some(before + contentType + after))
  {
    if Contains(contentType, ApplicationJson) {
      ContainsWithin(before, contentType, after, ApplicationJson);
    } else if Contains(contentType, ApplicationXml) {
      ContainsWithin(before, contentType, after, ApplicationXml);
    } else {
      ContainsWithin(before, contentType, after, TextPlain);
    }
  }

  lemma ShouldLogBodyExamples(inclusion: InclusionConfig)
    requires inclusion.body
    ensures ShouldLogBody(inclusion, Some("application/json"))
    ensures ShouldLogBody(inclusion, Some("application/json;charset=UTF-8"))
    ensures ShouldLogBody(inclusion, Some("text/plain"))
    ensures !ShouldLogBody(inclusion, None)
    ensures !ShouldLogBody(inclusion.(body := false), Some("application/json"))
  {
    assert StartsWith("application/json", ApplicationJson);
    ContainsPrefix("application/json", ApplicationJson);
    ShouldLogBodyIgnoresSurroundings(inclusion, "", "application/json", ";charset=UTF-8");
    assert "" + "application/json" + ";charset=UTF-8" == "application/json;charset=UTF-8";
    assert StartsWith("text/plain", TextPlain);
    ContainsPrefix("text/plain", TextPlain);
  }

  function DisabledBodyPlaceholder(contentType: Option<string>): string {
    "[Body logging disabled for content type: " + NullToString(contentType) + "]"
  }

  /** The warnings `extractRequestBody` / `extractResponseBody` log when the charset is
      not supported. */
  const RequestBodyWarning: Event := Log(UtilsLogger, WARN, "Failed to extract request body")
  const ResponseBodyWarning: Event := Log(UtilsLogger, WARN, "Failed to extract response body")

  /** What `extractRequestBody` / `extractResponseBody` return for a wrapper with the
      given content type and cached bytes, `decoded` being what charset decoding of
      those bytes gives (None: the charset is unsupported); the flag says whether the
      decoding failure was logged as a warning. */
  function ExtractedBody(inclusion: InclusionConfig, contentType: Option<string>, content: seq<bv8>, decoded: Option<string>): (r: (string, bool))
    ensures !ShouldLogBody(inclusion, contentType) ==> r == (DisabledBodyPlaceholder(contentType), false)
    ensures ShouldLogBody(inclusion, contentType) && content == [] ==> r == ("", false)
    ensures ShouldLogBody(inclusion, contentType) && content != [] ==>
      r == (decoded.GetOr(ErrorExtractingBody), decoded.None?)
  {
    if !ShouldLogBody(inclusion, contentType) then (DisabledBodyPlaceholder(contentType), false)
    else if |content| == 0 then ("", false)
    else match decoded
      case Some(text) => (text, false)
      case None => (ErrorExtractingBody, true)
  }

  // ---------------------------------------------------------------------------
  // Correlation id

  /** `extractOrGenerateCorrelationId`: the `X-Correlation-ID` header when it has text,
      otherwise the freshly generated id. */
  function CorrelationId(header: Option<string>, generated: string): (id: string)
    ensures id == generated || (header.Some? && id == header.value)
    ensures !IsBlank(id) || IsBlank(generated)
    ensures IsNotBlank(header) ==> id == header.value
    ensures !IsNotBlank(header) ==> id == generated
  {
    if IsNotBlank(header) then header.value else generated
  }

  // ---------------------------------------------------------------------------
  // Messages

  function RequestMessagePrefix(context: RequestContext): string {
    "Incoming Request | Method: " + context.httpMethod + " | Path: " + context.path
  }

  /** `buildRequestMessage`: the fixed prefix, then headers, query parameters and a
      non-blank body, each only when its inclusion flag is on. `render` is
      `Map.toString`. */
  function RequestMessage(inclusion: InclusionConfig, context: RequestContext, render: map<string, string> -> string): (m: string)
    ensures StartsWith(m, RequestMessagePrefix(context))
    ensures !inclusion.headers && !inclusion.queryParams && !(inclusion.body && IsNotBlank(context.requestBody)) ==>
      m == RequestMessagePrefix(context)
  {
    var prefix := RequestMessagePrefix(context);
    var headers := if inclusion.headers then " | Headers: " + render(context.headers) else "";
    var query := if inclusion.queryParams then " | Query Parameters: " + render(context.queryParams) else "";
    var body := if inclusion.body && IsNotBlank(context.requestBody) then " | Body: " + context.requestBody.value else "";
    var m := prefix + headers + query + body;
    assert m == prefix + (headers + query + body);
    m
  }

  /** A part whose flag is off never reaches the message, and a blank body is the same
      as none. */
  lemma RequestMessageIgnoresExcluded(inclusion: InclusionConfig, c: RequestContext, d: RequestContext, render: map<string, string> -> string)
    requires c.httpMethod == d.httpMethod && c.path == d.path
    requires inclusion.headers ==> c.headers == d.headers
    requires inclusion.queryParams ==> c.queryParams == d.queryParams
    requires inclusion.body ==> (IsNotBlank(c.requestBody) <==> IsNotBlank(d.requestBody))
    requires inclusion.body && IsNotBlank(c.requestBody) ==> c.requestBody == d.requestBody
    ensures RequestMessage(inclusion, c, render) == RequestMessage(inclusion, d, render)
  {
  }

  /** With headers and query parameters both included they come in that order right
      after the prefix. */
  lemma RequestMessageOrder(inclusion: InclusionConfig, c: RequestContext, render: map<string, string> -> string)
    requires inclusion.headers && inclusion.queryParams
    ensures StartsWith(RequestMessage(inclusion, c, render),
      RequestMessagePrefix(c) + " | Headers: " + render(c.headers) + " | Query Parameters: " + render(c.queryParams))
  {
    var start := RequestMessagePrefix(c) + " | Headers: " + render(c.headers) + " | Query Parameters: " + render(c.queryParams);
    var m := RequestMessage(inclusion, c, render);
    assert m[..|start|] == start;
  }

  /** Each included segment does appear: headers right after the prefix, query
      parameters after the headers (or right after the prefix), a non-blank body last;
      the message is exactly as long as the prefix and the included segments. */
  lemma RequestMessageSegments(inclusion: InclusionConfig, c: RequestContext, render: map<string, string> -> string)
    ensures var m := RequestMessage(inclusion, c, render);
      var headers := " | Headers: " + render(c.headers);
      var query := " | Query Parameters: " + render(c.queryParams);
      var withBody := inclusion.body && IsNotBlank(c.requestBody);
      && (inclusion.headers ==> StartsWith(m, RequestMessagePrefix(c) + headers))
      && (inclusion.queryParams && !inclusion.headers ==> StartsWith(m, RequestMessagePrefix(c) + query))
      && (withBody ==> EndsWith(m, " | Body: " + c.requestBody.value))
      && (!withBody && inclusion.queryParams ==> EndsWith(m, query))
      && (!withBody && !inclusion.queryParams && inclusion.headers ==> EndsWith(m, headers))
      && |m| == |RequestMessagePrefix(c)| + (if inclusion.headers then |headers| else 0)
           + (if inclusion.queryParams then |query| else 0)
           + (if withBody then |" | Body: " + c.requestBody.value| else 0)
  {
    var m := RequestMessage(inclusion, c, render);
    var prefix := RequestMessagePrefix(c);
    var h := if inclusion.headers then " | Headers: " + render(c.headers) else "";
    var q := if inclusion.queryParams then " | Query Parameters: " + render(c.queryParams) else "";
    var b := if inclusion.body && IsNotBlank(c.requestBody) then " | Body: " + c.requestBody.value else "";
    assert m == prefix + h + q + b;
    EndsWithConcat(prefix + h + q, b);
    AppendAssoc(prefix + h, q, b);
    StartsWithConcat(prefix + h, q + b);
    EndsWithConcat(prefix + h, q + b);
    AppendAssoc(prefix, h, q + b);
    EndsWithConcat(prefix, h + (q + b));
  }

  function ResponseMessagePrefix(context: RequestContext): string {
    "Outgoing Response | Status: " + IntToDecimal(context.statusCode)
  }

  /** `buildResponseMessage`: the status, then a non-blank body when bodies are
      included, then the execution time (null shows as "null") when performance is
      included. */
  function ResponseMessage(inclusion: InclusionConfig, context: RequestContext): (m: string)
    ensures StartsWith(m, ResponseMessagePrefix(context))
    ensures !(inclusion.body && IsNotBlank(context.responseBody)) && !inclusion.performance ==>
      m == ResponseMessagePrefix(context)
  {
    var prefix := ResponseMessagePrefix(context);
    var body := if inclusion.body && IsNotBlank(context.responseBody) then " | Body: " + context.responseBody.value else "";
    var time := if inclusion.performance then " | Execution Time: " + NullToString(context.executionTime) else "";
    var m := prefix + body + time;
    assert m == prefix + (body + time);
    m
  }

  /** The status reads back from the message; a part whose flag is off never reaches
      it. */
  lemma ResponseMessageProperties(inclusion: InclusionConfig, c: RequestContext, d: RequestContext)
    requires c.statusCode == d.statusCode
    requires inclusion.body ==> (IsNotBlank(c.responseBody) <==> IsNotBlank(d.responseBody))
    requires inclusion.body && IsNotBlank(c.responseBody) ==> c.responseBody == d.responseBody
    requires inclusion.performance ==> c.executionTime == d.executionTime
    ensures ResponseMessage(inclusion, c) == ResponseMessage(inclusion, d)
    ensures var status := "Outgoing Response | Status: ";
      ParseDecimal(ResponseMessagePrefix(c)[|status|..]) == Some(c.statusCode)
  {
    DecimalRoundTrip(c.statusCode);
    var status := "Outgoing Response | Status: ";
    assert ResponseMessagePrefix(c)[|status|..] == IntToDecimal(c.statusCode);
  }

  /** Each included segment does appear: a non-blank body right after the status, the
      execution time last; the message is exactly as long as the prefix and the included
      segments. */
  lemma ResponseMessageSegments(inclusion: InclusionConfig, c: RequestContext)
    ensures var m := ResponseMessage(inclusion, c);
      var time := " | Execution Time: " + NullToString(c.executionTime);
      var withBody := inclusion.body && IsNotBlank(c.responseBody);
      && (withBody ==> StartsWith(m, ResponseMessagePrefix(c) + " | Body: " + c.responseBody.value))
      && (inclusion.performance ==> EndsWith(m, time))
      && (withBody && !inclusion.performance ==> EndsWith(m, " | Body: " + c.responseBody.value))
      && (!withBody && inclusion.performance ==> StartsWith(m, ResponseMessagePrefix(c) + time))
      && |m| == |ResponseMessagePrefix(c)| + (if withBody then |" | Body: " + c.responseBody.value| else 0)
           + (if inclusion.performance then |time| else 0)
  {
    var m := ResponseMessage(inclusion, c);
    var prefix := ResponseMessagePrefix(c);
    var b := if inclusion.body && IsNotBlank(c.responseBody) then " | Body: " + c.responseBody.value else "";
    var t := if inclusion.performance then " | Execution Time: " + NullToString(c.executionTime) else "";
    assert m == prefix + b + t;
    StartsWithConcat(prefix + b, t);
    EndsWithConcat(prefix + b, t);
    AppendAssoc(prefix, b, t);
    EndsWithConcat(prefix, b + t);
  }

  // ---------------------------------------------------------------------------
  // This class's masker

  /** `createMask(rule)`: the replacement template handed to `replaceAll`. */
  function CreateMaskTemplate(rule: MaskingPattern): (t: string)
    ensures rule.visibleCharacters <= 0 ==> |t| == 8 * |rule.maskCharacter|
    ensures rule.visibleCharacters > 0 ==> StartsWith(t, "$1") && |t| == 2 + 8 * |rule.maskCharacter|
  {
    if rule.visibleCharacters <= 0 then Repeat(rule.maskCharacter, 8)
    else "$1" + Repeat(rule.maskCharacter, 8)
  }

  /** How `appendReplacement` reads a template whose only group reference is a leading
      "$1": that reference becomes the text of group 1, the rest is literal. */
  function Expand(template: string, group1: string): string {
    if StartsWith(template, "$1") then group1 + Slice(template, 2, |template|) else template
  }

  /** The text captured by group 1, empty when the group took no part in the match. */
  function GroupText(s: string, g: Group): string
    requires g.Captured? ==> g.start <= g.end <= |s|
  {
    if g.Captured? then Slice(s, g.start, g.end) else ""
  }

  /** The mask character contains nothing `replaceAll` would interpret. */
  predicate LiteralMask(rule: MaskingPattern) {
    forall i :: 0 <= i < |rule.maskCharacter| ==>
      rule.maskCharacter[i] != '$' && rule.maskCharacter[i] != '\\'
  }

  function Replacements(s: string, ms: seq<Match>, rule: MaskingPattern): (r: seq<string>)
    requires Ordered(ms, |s|)
    ensures |r| == |ms|
  {
    seq(|ms|, i requires 0 <= i < |ms| => Expand(CreateMaskTemplate(rule), GroupText(s, ms[i].group1)))
  }

  lemma RepeatHead(s: string, n: nat)
    requires s != [] && n > 0
    ensures Repeat(s, n)[0] == s[0]
  {
  }

  /** With a literal mask, each match is replaced by exactly eight mask characters
      when nothing is to stay visible, otherwise by the text of group 1 followed by
      exactly eight mask characters. */
  lemma ReplacementShape(s: string, g: Group, rule: MaskingPattern)
    requires g.Captured? ==> g.start <= g.end <= |s|
    requires LiteralMask(rule)
    ensures rule.visibleCharacters <= 0 ==>
      Expand(CreateMaskTemplate(rule), GroupText(s, g)) == Repeat(rule.maskCharacter, 8)
    ensures rule.visibleCharacters > 0 ==>
      Expand(CreateMaskTemplate(rule), GroupText(s, g)) == GroupText(s, g) + Repeat(rule.maskCharacter, 8)
  {
    var mask := rule.maskCharacter;
    if rule.visibleCharacters <= 0 && mask != [] {
      RepeatHead(mask, 8);
      assert Repeat(mask, 8)[0] != '$';
    }
    if rule.visibleCharacters > 0 {
      var template := "$1" + Repeat(mask, 8);
      SliceIsSubsequence(template, 2, |template|);
      assert template[2..] == Repeat(mask, 8);
    }
  }

  /** `pattern.matcher(s).replaceAll(createMask(rule))`: the input itself when nothing
      matches; IndexOutOfBoundsException ("No group 1") when the template refers to
      group 1 and the pattern has no group; otherwise every match spliced out. */
  function ReplaceAll(e: Engine, p: Pattern, s: string, rule: MaskingPattern): (r: Result<string, Throwable>)
    requires ValidEngine(e)
    ensures r.Failure? ==> r.error == NoSuchGroup(1) && e.find(p, s) != [] && e.groupCount(p) == 0
    ensures e.find(p, s) == [] ==> r == Success(s)
  {
    var ms := e.find(p, s);
    if ms == [] then Success(s)
    else if StartsWith(CreateMaskTemplate(rule), "$1") && e.groupCount(p) < 1 then Failure(NoSuchGroup(1))
    else Success(Splice(s, ms, Replacements(s, ms, rule)))
  }

  /** One rule: `Pattern.compile` (case-sensitive), then `replaceAll`. */
  function ApplyRule(e: Engine, s: string, rule: MaskingPattern): (r: Result<string, Throwable>)
    requires ValidEngine(e)
    ensures !e.compiles(rule.pattern, Plain) ==> r == Failure(PatternSyntax(rule.pattern))
    ensures r.Failure? ==> r.error.PatternSyntax? || r.error == NoSuchGroup(1)
  {
    match Compile(e, rule.pattern, Plain)
    case None => Failure(PatternSyntax(rule.pattern))
    case Some(p) => ReplaceAll(e, p, s, rule)
  }

  /** A rule that succeeds keeps every character outside its matches in place and puts
      each match's replacement where the match was. */
  lemma RuleKeepsUnmatchedText(e: Engine, s: string, rule: MaskingPattern)
    requires ValidEngine(e)
    requires ApplyRule(e, s, rule).Success?
    ensures e.compiles(rule.pattern, Plain)
    ensures var ms := e.find(Pattern(rule.pattern, Plain), s);
      ApplyRule(e, s, rule).value == Interleave(Gaps(s, ms), Replacements(s, ms, rule))
  {
    var ms := e.find(Pattern(rule.pattern, Plain), s);
    SpliceKeepsGaps(s, ms, Replacements(s, ms, rule));
    if ms == [] {
      assert Splice(s, [], []) == s;
    }
  }

  /** The rules in list order, each on the previous output; the first failure ends
      the loop and escapes. */
  function Fold(e: Engine, s: string, rules: seq<MaskingPattern>): (r: Result<string, Throwable>)
    requires ValidEngine(e)
    ensures r.Failure? ==> r.error.PatternSyntax? || r.error == NoSuchGroup(1)
    decreases |rules|
  {
    if rules == [] then Success(s)
    else
      match Fold(e, s, rules[..|rules| - 1])
      case Failure(t) => Failure(t)
      case Success(prev) => ApplyRule(e, prev, rules[|rules| - 1])
  }

  /** The patterns the loop puts into the cache: those of the rules it reaches whose
      source compiles. */
  function CompiledBy(e: Engine, s: string, rules: seq<MaskingPattern>): set<string>
    requires ValidEngine(e)
    decreases |rules|
  {
    if rules == [] then {}
    else
      var init := rules[..|rules| - 1];
      var last := rules[|rules| - 1];
      CompiledBy(e, s, init)
        + if Fold(e, s, init).Success? && e.compiles(last.pattern, Plain) then {last.pattern} else {}
  }

  /** `maskSensitiveData(content)`: blank content unchanged, otherwise every
      configured rule. */
  function Mask(e: Engine, content: string, rules: seq<MaskingPattern>): (r: Result<string, Throwable>)
    requires ValidEngine(e)
    ensures IsBlank(content) ==> r == Success(content)
    ensures rules == [] ==> r == Success(content)
    ensures r.Failure? ==> r.error.PatternSyntax? || r.error == NoSuchGroup(1)
  {
    if IsBlank(content) then Success(content) else Fold(e, content, rules)
  }

  function MaskCompiled(e: Engine, content: string, rules: seq<MaskingPattern>): set<string>
    requires ValidEngine(e)
  {
    if IsBlank(content) then {} else CompiledBy(e, content, rules)
  }

  /** Running r1 then r2 is running r2 on the result of r1, unless r1 already threw. */
  lemma {:induction false} FoldAppend(e: Engine, s: string, r1: seq<MaskingPattern>, r2: seq<MaskingPattern>)
    requires ValidEngine(e)
    ensures Fold(e, s, r1 + r2) ==
      if Fold(e, s, r1).Failure? then Fold(e, s, r1) else Fold(e, Fold(e, s, r1).value, r2)
    decreases |r2|
  {
    if r2 == [] {
      AppendEmpty(r1);
    } else {
      LastSplit(r1, r2);
      FoldAppend(e, s, r1, r2[..|r2| - 1]);
    }
  }

  /** No per-rule catch: once the rules before it have run, a rule whose pattern does
      not compile makes the whole call throw, and no later rule runs. */
  lemma InvalidPatternAborts(e: Engine, s: string, rules: seq<MaskingPattern>, k: nat)
    requires ValidEngine(e)
    requires k < |rules| && Fold(e, s, rules[..k]).Success?
    requires !e.compiles(rules[k].pattern, Plain)
    ensures Fold(e, s, rules) == Failure(PatternSyntax(rules[k].pattern))
  {
    CutAt(rules, k);
    PrefixOfPrefix(rules, k);
    FailureStops(e, s, rules[..k + 1], rules[k + 1..]);
  }

  /** A failure is final: rules after it change nothing and compile nothing. */
  lemma {:induction false} FailureStops(e: Engine, s: string, r1: seq<MaskingPattern>, r2: seq<MaskingPattern>)
    requires ValidEngine(e)
    requires Fold(e, s, r1).Failure?
    ensures Fold(e, s, r1 + r2) == Fold(e, s, r1)
    ensures CompiledBy(e, s, r1 + r2) == CompiledBy(e, s, r1)
    decreases |r2|
  {
    if r2 == [] {
      AppendEmpty(r1);
    } else {
      var init := r2[..|r2| - 1];
      LastSplit(r1, r2);
      FailureStops(e, s, r1, init);
      assert Fold(e, s, r1 + r2) == Fold(e, s, r1 + init);
    }
  }

  /** One more turn of the loop: the rule at k runs on the output of the rules before
      it, unless they already threw. */
  lemma FoldStep(e: Engine, s: string, rules: seq<MaskingPattern>, k: nat)
    requires ValidEngine(e) && k < |rules|
    ensures var before := Fold(e, s, rules[..k]);
      Fold(e, s, rules[..k + 1]) == if before.Failure? then before else ApplyRule(e, before.value, rules[k])
    ensures CompiledBy(e, s, rules[..k + 1]) == CompiledBy(e, s, rules[..k])
      + if Fold(e, s, rules[..k]).Success? && e.compiles(rules[k].pattern, Plain) then {rules[k].pattern} else {}
  {
    PrefixOfPrefix(rules, k);
  }

  /** The loop ends at the first rule that throws. */
  lemma StopsAt(e: Engine, s: string, rules: seq<MaskingPattern>, k: nat)
    requires ValidEngine(e) && k < |rules|
    requires Fold(e, s, rules[..k + 1]).Failure?
    ensures Fold(e, s, rules) == Fold(e, s, rules[..k + 1])
    ensures CompiledBy(e, s, rules) == CompiledBy(e, s, rules[..k + 1])
  {
    FailureStops(e, s, rules[..k + 1], rules[k + 1..]);
    CutAt(rules, k);
  }

  // ---------------------------------------------------------------------------
  // Enabled / excluded gate

  /** Some excluded pattern at position k or later compiles and matches the whole path. */
  predicate MatchesFrom(e: Engine, excluded: seq<string>, path: string, k: nat) {
    exists i :: k <= i < |excluded| && e.compiles(excluded[i], Plain) && e.matches(Pattern(excluded[i], Plain), path)
  }

  /** Every excluded pattern at position k or later compiles. */
  predicate CompilesFrom(e: Engine, excluded: seq<string>, k: nat) {
    forall i :: k <= i < |excluded| ==> e.compiles(excluded[i], Plain)
  }

  predicate MatchesSome(e: Engine, excluded: seq<string>, path: string) {
    MatchesFrom(e, excluded, path, 0)
  }

  predicate AllCompile(e: Engine, excluded: seq<string>) {
    CompilesFrom(e, excluded, 0)
  }

  /** `anyMatch` from position k on: the patterns in order, stopping at the first that
      fully matches; a pattern reached that does not compile throws. */
  function ExcludedFrom(e: Engine, excluded: seq<string>, path: Option<string>, k: nat): (r: Result<bool, Throwable>)
    requires k <= |excluded|
    ensures path.None? ==> r == Success(false)
    ensures r == Success(true) ==> path.Some? && MatchesFrom(e, excluded, path.value, k)
    ensures r.Failure? ==> exists i :: k <= i < |excluded| && r.error == PatternSyntax(excluded[i]) && !e.compiles(excluded[i], Plain)
    ensures path.Some? && CompilesFrom(e, excluded, k) ==> r == Success(MatchesFrom(e, excluded, path.value, k))
    decreases |excluded| - k
  {
    if path.None? || k == |excluded| then Success(false)
    else if !e.compiles(excluded[k], Plain) then Failure(PatternSyntax(excluded[k]))
    else if e.matches(Pattern(excluded[k], Plain), path.value) then Success(true)
    else ExcludedFrom(e, excluded, path, k + 1)
  }

  /** `isExcludedPath(path)`: a null path matches nothing (and compiles nothing). */
  function IsExcludedPath(e: Engine, excluded: seq<string>, path: Option<string>): (r: Result<bool, Throwable>)
    ensures path.None? ==> r == Success(false)
    ensures r == Success(true) ==> path.Some? && MatchesSome(e, excluded, path.value)
    ensures r.Failure? ==> r.error.PatternSyntax? && r.error.pattern in excluded && !AllCompile(e, excluded)
    ensures path.Some? && AllCompile(e, excluded) ==> r == Success(MatchesSome(e, excluded, path.value))
  {
    ExcludedFrom(e, excluded, path, 0)
  }

  /** `isLoggingEnabled()`: the master switch, then the path exclusion on the MDC
      "requestUri" value (evaluated only when the switch is on). */
  function LoggingEnabled(properties: LoggingProperties, e: Engine, mdc: map<string, string>): (r: Result<bool, Throwable>)
    ensures !properties.enabled ==> r == Success(false)
    ensures RequestUriMdcKey !in mdc ==> r == Success(properties.enabled)
    ensures r == Success(true) ==> properties.enabled
    ensures r.Failure? ==> r.error.PatternSyntax?
  {
    if !properties.enabled then Success(false)
    else
      match IsExcludedPath(e, properties.excludedPaths, MdcGet(mdc, RequestUriMdcKey))
      case Failure(t) => Failure(t)
      case Success(excluded) => Success(!excluded)
  }

  // ---------------------------------------------------------------------------
  // Emission

  /** What one `logRequest` / `logResponse` call leaves behind: the lines logged, the
      patterns it put into the cache, and the exception that escaped, if any. */
  datatype Emission = Emission(events: seq<Event>, compiled: set<string>, thrown: Option<Throwable>)

  /** The body of `logRequest` / `logResponse` for an assembled message. */
  function Emit(properties: LoggingProperties, e: Engine, mdc: map<string, string>, profile: Option<string>, message: string): (r: Emission)
    requires ValidEngine(e)
    ensures |r.events| <= 1
    ensures r.events != [] ==> r.thrown.None?
    ensures forall ev :: ev in r.events ==> ev.Log? && ev.logger == UtilsLogger
    ensures r.thrown.Some? ==> r.thrown.value.PatternSyntax? || r.thrown.value == NoSuchGroup(1)
  {
    match LoggingEnabled(properties, e, mdc)
    case Failure(t) => Emission([], {}, Some(t))
    case Success(enabled) =>
      if !enabled then Emission([], {}, None)
      else
        var level := DetermineLogLevel(properties.environments, profile);
        var compiled := MaskCompiled(e, message, properties.maskPatterns);
        match Mask(e, message, properties.maskPatterns)
        case Failure(t) => Emission([], compiled, Some(t))
        case Success(masked) => Emission([Log(UtilsLogger, level, masked)], compiled, None)
  }

  /** Nothing is logged when logging is off or the path is excluded; otherwise exactly
      one line, at the resolved level, holding the masked message, unless masking
      throws, in which case nothing is logged and the exception escapes. */
  lemma EmitGate(properties: LoggingProperties, e: Engine, mdc: map<string, string>, profile: Option<string>, message: string)
    requires ValidEngine(e)
    ensures !properties.enabled ==> Emit(properties, e, mdc, profile, message) == Emission([], {}, None)
    ensures (properties.enabled && RequestUriMdcKey in mdc
             && IsExcludedPath(e, properties.excludedPaths, Some(mdc[RequestUriMdcKey])) == Success(true)) ==>
      Emit(properties, e, mdc, profile, message) == Emission([], {}, None)
    ensures LoggingEnabled(properties, e, mdc) == Success(true) ==>
      var em := Emit(properties, e, mdc, profile, message);
      match Mask(e, message, properties.maskPatterns)
      case Success(masked) =>
        em.events == [Log(UtilsLogger, DetermineLogLevel(properties.environments, profile), masked)] && em.thrown.None?
      case Failure(t) => em.events == [] && em.thrown == Some(t)
  {
  }

  /** An emission with logging on that did not throw is the one masked line. */
  lemma EmittedLine(properties: LoggingProperties, e: Engine, mdc: map<string, string>, profile: Option<string>, message: string)
    requires ValidEngine(e)
    requires LoggingEnabled(properties, e, mdc) == Success(true)
    requires Emit(properties, e, mdc, profile, message).thrown.None?
    ensures Mask(e, message, properties.maskPatterns).Success?
    ensures Emit(properties, e, mdc, profile, message).events
      == [Log(UtilsLogger, DetermineLogLevel(properties.environments, profile), Mask(e, message, properties.maskPatterns).value)]
  {
  }

  class LoggingUtils {
    const properties: LoggingProperties
    const engine: Engine
    const render: map<string, string> -> string
    const decode: (seq<bv8>, string) -> Option<string>
    const host: Host
    var patternCache: map<string, Pattern>

    /** Every cached entry is the case-sensitive compilation of its own key. */
    ghost predicate Valid()
      reads this
    {
      && ValidEngine(engine)
      && forall k :: k in patternCache ==>
           patternCache[k] == Pattern(k, Plain) && engine.compiles(k, Plain)
    }

    constructor(properties: LoggingProperties, engine: Engine, render: map<string, string> -> string,
                decode: (seq<bv8>, string) -> Option<string>, host: Host)
      requires ValidEngine(engine)
      ensures Valid() && patternCache == map[]
      ensures this.properties == properties && this.engine == engine && this.render == render
      ensures this.decode == decode && this.host == host
    {
      this.properties := properties;
      this.engine := engine;
      this.render := render;
      this.decode := decode;
      this.host := host;
      patternCache := map[];
    }

    /** `initializeContext(request)`: the correlation id, stored under "correlationId"
        in the MDC. `generatedId` is what `UUID.randomUUID()` would give. */
    method InitializeContext(request: CachingRequest, generatedId: string) returns (correlationId: string)
      modifies host`mdc
      ensures correlationId == CorrelationId(GetHeader(request.http.headerLines, CorrelationIdHeader), generatedId)
      ensures host.mdc == old(host.mdc)[CorrelationIdMdcKey := correlationId]
    {
      correlationId := CorrelationId(GetHeader(request.http.headerLines, CorrelationIdHeader), generatedId);
      host.mdc := host.mdc[CorrelationIdMdcKey := correlationId];
    }

    /** `clearContext()`: removes the correlation id and nothing else. */
    method ClearContext()
      modifies host`mdc
      ensures host.mdc == old(host.mdc) - {CorrelationIdMdcKey}
    {
      host.mdc := host.mdc - {CorrelationIdMdcKey};
    }

    /** `patternCache.computeIfAbsent(source, Pattern::compile)`. */
    method CompileCached(source: string) returns (p: Result<Pattern, Throwable>)
      requires Valid()
      modifies this`patternCache
      ensures Valid()
      ensures engine.compiles(source, Plain) ==> p == Success(Pattern(source, Plain))
      ensures !engine.compiles(source, Plain) ==> p == Failure(PatternSyntax(source))
      ensures patternCache == if p.Success? then old(patternCache)[source := p.value] else old(patternCache)
    {
      if source in patternCache {
        p := Success(patternCache[source]);
        assert patternCache[source := p.value] == patternCache;
      } else if engine.compiles(source, Plain) {
        p := Success(Pattern(source, Plain));
        patternCache := patternCache[source := p.value];
      } else {
        p := Failure(PatternSyntax(source));
      }
    }

    /** `maskSensitiveData(content)`. */
    method MaskSensitiveData(content: string) returns (r: Result<string, Throwable>)
      requires Valid()
      modifies this`patternCache
      ensures Valid()
      ensures r == Mask(engine, content, properties.maskPatterns)
      ensures patternCache.Keys == old(patternCache.Keys) + MaskCompiled(engine, content, properties.maskPatterns)
    {
      if IsBlank(content) {
        return Success(content);
      }
      var rules := properties.maskPatterns;
      var maskedContent := content;
      var i := 0;
      while i < |rules|
        invariant 0 <= i <= |rules|
        invariant Valid()
        invariant Fold(engine, content, rules[..i]) == Success(maskedContent)
        invariant patternCache.Keys == old(patternCache.Keys) + CompiledBy(engine, content, rules[..i])
      {
        var rule := rules[i];
        FoldStep(engine, content, rules, i);
        var pattern := CompileCached(rule.pattern);
        if pattern.Failure? {
          StopsAt(engine, content, rules, i);
          return Failure(pattern.error);
        }
        var replaced := ReplaceAll(engine, pattern.value, maskedContent, rule);
        if replaced.Failure? {
          StopsAt(engine, content, rules, i);
          return replaced;
        }
        maskedContent := replaced.value;
        i := i + 1;
      }
      WholePrefix(rules);
      r := Success(maskedContent);
    }

    /** The shared body of `logRequest` and `logResponse` for an assembled message;
        None when nothing escaped. */
    method LogMessage(message: string) returns (thrown: Option<Throwable>)
      requires Valid()
      modifies this`patternCache, host`events
      ensures Valid()
      ensures var em := Emit(properties, engine, host.mdc, host.activeProfile, message);
        && thrown == em.thrown
        && host.events == old(host.events) + em.events
        && patternCache.Keys == old(patternCache.Keys) + em.compiled
    {
      var enabled := LoggingEnabled(properties, engine, host.mdc);
      if enabled.Failure? {
        return Some(enabled.error);
      }
      if !enabled.value {
        return None;
      }
      var level := DetermineLogLevel(properties.environments, host.activeProfile);
      var masked := MaskSensitiveData(message);
      if masked.Failure? {
        return Some(masked.error);
      }
      host.events := host.events + [Log(UtilsLogger, level, masked.value)];
      thrown := None;
    }

    /** `logRequest(context)`. */
    method LogRequest(context: RequestContext) returns (thrown: Option<Throwable>)
      requires Valid()
      modifies this`patternCache, host`events
      ensures Valid()
      ensures var em := Emit(properties, engine, host.mdc, host.activeProfile, RequestMessage(properties.inclusion, context, render));
        && thrown == em.thrown
        && host.events == old(host.events) + em.events
        && patternCache.Keys == old(patternCache.Keys) + em.compiled
    {
      thrown := LogMessage(RequestMessage(properties.inclusion, context, render));
    }

    /** `logResponse(context)`. */
    method LogResponse(context: RequestContext) returns (thrown: Option<Throwable>)
      requires Valid()
      modifies this`patternCache, host`events
      ensures Valid()
      ensures var em := Emit(properties, engine, host.mdc, host.activeProfile, ResponseMessage(properties.inclusion, context));
        && thrown == em.thrown
        && host.events == old(host.events) + em.events
        && patternCache.Keys == old(patternCache.Keys) + em.compiled
    {
      thrown := LogMessage(ResponseMessage(properties.inclusion, context));
    }

    /** `extractRequestBody(wrapper)`. */
    method ExtractRequestBody(wrapper: CachingRequest) returns (body: string)
      modifies host`events
      ensures var x := ExtractedBody(properties.inclusion, wrapper.http.contentType, wrapper.cached,
                                     decode(wrapper.cached, wrapper.http.characterEncoding));
        && body == x.0
        && host.events == old(host.events) + if x.1 then [RequestBodyWarning] else []
    {
      var x := ExtractedBody(properties.inclusion, wrapper.http.contentType, wrapper.cached,
                             decode(wrapper.cached, wrapper.http.characterEncoding));
      if x.1 {
        host.events := host.events + [RequestBodyWarning];
      }
      body := x.0;
    }

    /** `extractResponseBody(wrapper)`; a null wrapper is dereferenced at once. */
    method ExtractResponseBody(wrapper: Option<CachingResponse>) returns (r: Result<string, Throwable>)
      modifies host`events
      ensures wrapper.None? ==> r == Failure(NullPointer) && host.events == old(host.events)
      ensures wrapper.Some? ==>
        var w := wrapper.value;
        var x := ExtractedBody(properties.inclusion, w.http.contentType, w.cached, decode(w.cached, w.http.characterEncoding));
        && r == Success(x.0)
        && host.events == old(host.events) + if x.1 then [ResponseBodyWarning] else []
    {
      if wrapper.None? {
        return Failure(NullPointer);
      }
      var w := wrapper.value;
      var x := ExtractedBody(properties.inclusion, w.http.contentType, w.cached, decode(w.cached, w.http.characterEncoding));
      if x.1 {
        host.events := host.events + [ResponseBodyWarning];
      }
      r := Success(x.0);
    }
  }
}
