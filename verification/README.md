# ash-core-aspects: request/response logging with masking, in Dafny

A model of the logging core of `ash-core-aspects`, a Spring library whose around-advice
(`RequestResponseLoggingAspect.logRequestResponse`) does the following for each
controller call:

- puts a correlation id into the MDC (mapped diagnostic context);
- logs the request;
- runs the endpoint;
- logs the response;
- copies the cached response body back to the real response;
- logs and rethrows any exception;
- always clears the correlation id.

Messages pass through a masker before they reach a logger. The repository has two
maskers, and both are modelled as written:

- `DataMasker`: case-insensitive patterns, a partial-reveal mask inserted literally,
  and failing rules skipped with a warning.
- `LoggingUtils`' own masker, which is the one the advice actually uses: case-sensitive
  patterns, a `"$1"` back-reference template, and no per-rule error handling.

Modules, one per concern:

| module | file | models |
|---|---|---|
| `Wrappers` | wrappers.dfy | nullable references (`Option`) and calls that may throw (`Result`) |
| `Sequences` | sequences.dfy | slicing and concatenation facts shared by the proofs |
| `Text` | text.dfy | `String.repeat`, `isBlank`, `contains`, decimal rendering of `long`, `String.split` with a one-character separator |
| `LogLevels` | log_level.dfy | the `LogLevel` enum and `isEnabled` |
| `Models` | models.dfy | `MaskingPattern`, `RequestContext`, the Java `long` range |
| `Properties` | properties.dfy | `LoggingProperties` and its nested configuration classes |
| `Regex` | regex.dfy | the regex engine as a parameter; the exact splice done by `appendReplacement`/`appendTail` |
| `Runtime` | runtime.dfy | the MDC, the log as a sequence of events, the active profile, throwables |
| `Servlet` | servlet.dfy | requests and responses with their header lines and the content-caching wrappers |
| `DataMasking` | data_masker.dfy | `DataMasker` (a class with its `patternCache` field) and its pure specification |
| `LoggingUtilities` | logging_utils.dfy | `LoggingUtils` (a class with its `patternCache` field) and its pure specification |
| `Interceptor` | aspect.dfy | the advice (a class), `extractHeaders`, `extractQueryParams` and the whole call as a function `Intercept` |

The stateful parts are classes, and each method is proved against a specification
function:

- `DataMasker.MaskSensitiveData` against `Mask`;
- `LoggingUtils.MaskSensitiveData` against `Mask`/`Fold`;
- `LogRequestResponse` against `Intercept`.

The properties are then proved about those functions. The observable state of one
thread is a `Host`:

- the MDC is a `map`;
- whatever reaches a logger, the endpoint being run, and the body copy are appended to
  an event sequence;
- the active profile is a value.

Three behaviours of the code are easy to misread, and the model follows the code
exactly:

- **Query segment `"=b"`.** `extractQueryParams` keeps a segment when `split("=")`
  gives exactly two pieces (RequestResponseLoggingAspect.java:180-182). `"=b".split("=")`
  is `["", "b"]`, so `"=b"` is kept under the empty key, while `"a="` (one piece after
  the trailing empty string is dropped) and `"a=b=c"` (three pieces) are not. See
  `EmptyKeyKept` and `ParamsOfKeys`.
- **Invalid masking pattern.** `DataMasker.maskSensitiveData` catches the exception of
  each rule and goes on with the next one (DataMasker.java:33-37).
  `LoggingUtils.maskSensitiveData`, the masker the advice actually calls, has no catch
  around its loop (LoggingUtils.java:195-203). A `PatternSyntaxException` therefore
  escapes `logRequest`, the advice logs and rethrows it, and the endpoint never runs.
  See `InvalidPatternAborts` and `FailingRuleIsSkipped`.
- **Null response.** The advice tests `responseWrapper != null` only before
  `copyBodyToResponse` (RequestResponseLoggingAspect.java:119). It has already
  dereferenced the wrapper in `extractResponseBody(responseWrapper)` at line 109. A call
  whose endpoint returned normally with a null response therefore ends in a
  `NullPointerException` after the endpoint has run. See `NullResponseFailsAfterHandler`.

## Model

| member | source | states |
|---|---|---|
| LogLevels.Ordinal | src/main/java/com/ashishbagdane/lib/aspects/logging/models/LogLevel.java:6-11 | each level's ordinal is below 5 |
| LogLevels.DeclarationOrder | src/main/java/com/ashishbagdane/lib/aspects/logging/models/LogLevel.java:6-11 | TRACE < DEBUG < INFO < WARN < ERROR by ordinal; distinct levels have distinct ordinals |
| LogLevels.IsEnabled | src/main/java/com/ashishbagdane/lib/aspects/logging/models/LogLevel.java:13-15 | definition; its properties are `IsEnabledReflexive`, `IsEnabledTransitive`, `IsEnabledTotal`, `IsEnabledAntisymmetric` and `IsEnabledExtremes` |
| LogLevels.IsEnabledReflexive | src/main/java/com/ashishbagdane/lib/aspects/logging/models/LogLevel.java:13-15 | every level is enabled at its own minimum |
| LogLevels.IsEnabledTransitive | src/main/java/com/ashishbagdane/lib/aspects/logging/models/LogLevel.java:13-15 | `isEnabled` is transitive |
| LogLevels.IsEnabledTotal | src/main/java/com/ashishbagdane/lib/aspects/logging/models/LogLevel.java:13-15 | for any two levels one is enabled at the other |
| LogLevels.IsEnabledAntisymmetric | src/main/java/com/ashishbagdane/lib/aspects/logging/models/LogLevel.java:13-15 | if each is enabled at the other, the levels are equal |
| LogLevels.IsEnabledExtremes | src/main/java/com/ashishbagdane/lib/aspects/logging/models/LogLevel.java:13-15 | every level is enabled at TRACE; only ERROR is enabled at ERROR |
| Properties.NewInclusionConfig | src/main/java/dev/ash/core/aspects/logging/models/LoggingProperties.java:61-66 | the no-argument constructor turns on headers, query parameters, body and performance |
| Properties.InclusionConfigOf | src/main/java/dev/ash/core/aspects/logging/models/LoggingProperties.java:69-74 | each non-null argument is kept exactly; each null argument becomes true, independently of the others |
| Properties.NewAsyncConfig | src/main/java/dev/ash/core/aspects/logging/models/LoggingProperties.java:88-91 | the no-argument constructor gives enabled = true and timeout "30s" |
| Properties.AsyncConfigOf | src/main/java/dev/ash/core/aspects/logging/models/LoggingProperties.java:94-97 | null enabled becomes true, null timeout becomes "30s", and non-null values are kept |
| Properties.BuilderDefaults | src/main/java/dev/ash/core/aspects/logging/models/LoggingProperties.java:29-42 | the builder gives empty excluded paths, mask patterns and environments, and default inclusion and async groups |
| Models.DefaultMaskingPattern | src/main/java/com/ashishbagdane/lib/aspects/logging/masking/MaskingPattern.java:14-21 | a rule built from just a pattern has mask "*" and no visible characters |
| Text.Repeat | src/main/java/dev/ash/core/aspects/logging/masking/DataMasker.java:80 | `s.repeat(n)` has length n times that of s |
| Text.IsBlank | src/main/java/dev/ash/core/aspects/logging/utils/LoggingUtils.java:191 | definition (also the negation of `hasText` at DataMasker.java:27); its properties are `DataMasking.NoRulesIsIdentity`, `LoggingUtilities.Mask` and `LoggingUtilities.RequestMessageIgnoresExcluded` |
| Text.ContainsWithin | src/main/java/dev/ash/core/aspects/logging/utils/LoggingUtils.java:219-223 | text around a string does not hide a substring it contains |
| Text.DecimalRoundTrip | src/main/java/dev/ash/core/aspects/logging/utils/LoggingUtils.java:156-158 | reading back the decimal rendering of a `long` gives the number back |
| Text.IntToDecimal | src/main/java/dev/ash/core/aspects/logging/utils/LoggingUtils.java:156-158 | definition of the `long` to string conversion; its property is `DecimalRoundTrip` |
| Text.SplitPairOf | src/main/java/dev/ash/core/aspects/logging/aspect/RequestResponseLoggingAspect.java:179-181 | `split` cuts k, separator, non-empty v and any number of trailing separators into exactly [k, v] |
| Text.SplitPairShape | src/main/java/dev/ash/core/aspects/logging/aspect/RequestResponseLoggingAspect.java:180-181 | conversely, every segment `split` cuts into two pieces has that shape, with separator-free pieces and a non-empty value |
| Text.SplitJoin | src/main/java/dev/ash/core/aspects/logging/aspect/RequestResponseLoggingAspect.java:179-180 | the pieces of a split, rejoined with the separator, give the input back |
| Text.JavaSplit | src/main/java/dev/ash/core/aspects/logging/aspect/RequestResponseLoggingAspect.java:179-180 | definition of `split` with limit 0; its properties are `SplitPairOf`, `SplitPairShape` and `SplitJoin` |
| Regex.Compile | src/main/java/dev/ash/core/aspects/logging/masking/DataMasker.java:50-53 | compilation succeeds exactly when the engine accepts the source, and the result keeps source and flags |
| Regex.SpliceKeepsGaps | src/main/java/dev/ash/core/aspects/logging/masking/DataMasker.java:55-65 | the find/appendReplacement/appendTail output is the text between the matches, unchanged and in place, interleaved with the replacements |
| Regex.Splice | src/main/java/dev/ash/core/aspects/logging/masking/DataMasker.java:55-65 | definition of the find/appendReplacement/appendTail loop; its properties are `SpliceKeepsGaps`, `GapsAndTexts` and `SpliceIdentity` |
| Regex.GapsAndTexts | src/main/java/dev/ash/core/aspects/logging/masking/DataMasker.java:55-65 | the input is the text between the matches interleaved with the matched texts |
| Regex.SpliceIdentity | src/main/java/dev/ash/core/aspects/logging/masking/DataMasker.java:55-65 | replacing each match by its own text, or having no match, gives the input back |
| Servlet.WrapRequest | src/main/java/dev/ash/core/aspects/logging/aspect/RequestResponseLoggingAspect.java:136-141 | the wrapper holds the same request; a plain request gets a fresh wrapper with nothing cached |
| Servlet.WrapResponse | src/main/java/dev/ash/core/aspects/logging/aspect/RequestResponseLoggingAspect.java:146-151 | null stays null and non-null gives a wrapper; a plain response gets a fresh wrapper |
| Servlet.WrapIdempotent | src/main/java/dev/ash/core/aspects/logging/aspect/RequestResponseLoggingAspect.java:136-151 | a wrapper is returned as it is, so wrapping twice is wrapping once |
| Servlet.GetHeader | src/main/java/dev/ash/core/aspects/logging/aspect/RequestResponseLoggingAspect.java:164 | `getHeader(name)` is non-null exactly when some header line has that name, ignoring case |
| Servlet.HeaderNames | src/main/java/dev/ash/core/aspects/logging/aspect/RequestResponseLoggingAspect.java:162 | there are no more enumerated header names than header lines |
| Servlet.HeaderNamesSound | src/main/java/dev/ash/core/aspects/logging/aspect/RequestResponseLoggingAspect.java:162 | every enumerated name is the name of some header line |
| Servlet.HeaderNamesComplete | src/main/java/dev/ash/core/aspects/logging/aspect/RequestResponseLoggingAspect.java:162-164 | every header line is enumerated under a spelling of its name |
| Servlet.NamedHeadersHaveValues | src/main/java/dev/ash/core/aspects/logging/aspect/RequestResponseLoggingAspect.java:162-164 | `getHeader` is non-null for every enumerated name |
| DataMasking.CreateMask | src/main/java/dev/ash/core/aspects/logging/masking/DataMasker.java:75-92 | with nothing visible the mask is eight mask strings long; otherwise it starts with the visible prefix of the match and is at most that prefix plus eight mask strings long |
| DataMasking.FullMaskHidesMatch | src/main/java/dev/ash/core/aspects/logging/masking/DataMasker.java:79-81 | with visibleCharacters <= 0 every match gets exactly eight mask characters, whatever its length |
| DataMasking.ShortMatchUnchanged | src/main/java/dev/ash/core/aspects/logging/masking/DataMasker.java:83-85 | a match no longer than the visible count, equality included, is returned unchanged |
| DataMasking.PartialMaskRevealsOnlyPrefix | src/main/java/dev/ash/core/aspects/logging/masking/DataMasker.java:87-91 | a longer match becomes its visible prefix plus min(8, hidden length) mask characters; matches that agree on those two get the same mask |
| DataMasking.CreateMaskExamples | src/main/java/dev/ash/core/aspects/logging/masking/DataMasker.java:75-92 | "abcdef" with 2 visible gives "ab****", with 10 visible gives "abcdef", with 0 visible gives "********"; the mask count is capped at eight |
| DataMasking.Masks | src/main/java/dev/ash/core/aspects/logging/masking/DataMasker.java:58-60 | there is one mask per match |
| DataMasking.Step | src/main/java/dev/ash/core/aspects/logging/masking/DataMasker.java:33-37 | a rule whose pattern does not compile leaves the running value unchanged |
| DataMasking.ApplyRule | src/main/java/dev/ash/core/aspects/logging/masking/DataMasker.java:49-66 | definition; its properties are `RuleKeepsUnmatchedText`, `RuleWithoutMatchIsIdentity` and `FailingRuleIsSkipped` |
| DataMasking.FoldRules | src/main/java/dev/ash/core/aspects/logging/masking/DataMasker.java:31-39 | definition; its properties are `FoldAppend` and `FailingRuleIsSkipped` |
| DataMasking.Mask | src/main/java/dev/ash/core/aspects/logging/masking/DataMasker.java:26-41 | definition; its properties are `NoRulesIsIdentity`, `FoldAppend`, `FailingRuleIsSkipped` and `DataMasker.MaskSensitiveData` |
| DataMasking.NoRulesIsIdentity | src/main/java/dev/ash/core/aspects/logging/masking/DataMasker.java:27-29 | blank content, or a null or empty rule list, is returned unchanged; so masking again with no rules changes nothing |
| DataMasking.FoldAppend | src/main/java/dev/ash/core/aspects/logging/masking/DataMasker.java:31-38 | rules run in list order: r1 ++ r2 is r2 applied to the output of r1 |
| DataMasking.FailingRuleIsSkipped | src/main/java/dev/ash/core/aspects/logging/masking/DataMasker.java:33-37 | a failing rule is as if absent: the rules after it still run on the last successful value |
| DataMasking.RuleWithoutMatchIsIdentity | src/main/java/dev/ash/core/aspects/logging/masking/DataMasker.java:55-65 | a rule with no match returns its input |
| DataMasking.RuleKeepsUnmatchedText | src/main/java/dev/ash/core/aspects/logging/masking/DataMasker.java:55-65 | one rule keeps all text outside its matches in place and puts each match's mask, taken literally, where the match was |
| DataMasking.AppendReplacements | src/main/java/dev/ash/core/aspects/logging/masking/DataMasker.java:55-65 | the find/appendReplacement/appendTail loop yields the splice of the masks into the text |
| DataMasking.DataMasker.constructor | src/main/java/dev/ash/core/aspects/logging/masking/DataMasker.java:17 | a new masker starts with an empty cache |
| DataMasking.DataMasker.CompileCached | src/main/java/dev/ash/core/aspects/logging/masking/DataMasker.java:50-53 | `computeIfAbsent`: the result is the case-insensitive compilation; a hit leaves the cache alone, a successful miss adds exactly that entry, a failure adds nothing |
| DataMasking.DataMasker.ApplyMaskingPattern | src/main/java/dev/ash/core/aspects/logging/masking/DataMasker.java:49-66 | `applyMaskingPattern` equals `ApplyRule`; the cache gains the rule's pattern exactly when it compiles |
| DataMasking.DataMasker.MaskSensitiveData | src/main/java/dev/ash/core/aspects/logging/masking/DataMasker.java:26-40 | the result is `Mask`; on the early return nothing changes; otherwise the cache gains the compilable patterns and one warning is logged per failing rule, in order |
| DataMasking.DataMasker.ClearPatternCache | src/main/java/dev/ash/core/aspects/logging/masking/DataMasker.java:97-99 | the cache is empty afterwards |
| LoggingUtilities.MdcGet | src/main/java/dev/ash/core/aspects/logging/utils/LoggingUtils.java:175 | `MDC.get` is non-null exactly when the key is present |
| LoggingUtilities.ElapsedMillis | src/main/java/dev/ash/core/aspects/logging/utils/LoggingUtils.java:154 | `endTime - startTime` is the true difference modulo 2^64, within the `long` range |
| LoggingUtilities.ElapsedExact | src/main/java/dev/ash/core/aspects/logging/utils/LoggingUtils.java:154 | without overflow the difference is exact |
| LoggingUtilities.FormatExecutionTimeReadsBack | src/main/java/dev/ash/core/aspects/logging/utils/LoggingUtils.java:153-159 | below 1000 the text is the millisecond count followed by "ms"; otherwise it is the truncated whole seconds followed by "s", and the number reads back exactly |
| LoggingUtilities.FormatExecutionTime | src/main/java/dev/ash/core/aspects/logging/utils/LoggingUtils.java:153-159 | definition; its properties are `FormatExecutionTimeReadsBack`, `FormatExecutionTimeExamples` and `FormatExecutionTimeWraps` |
| LoggingUtilities.FormatExecutionTimeExamples | src/main/java/dev/ash/core/aspects/logging/utils/LoggingUtils.java:153-159 | (0, 999) gives "999ms", (0, 2500) gives "2s", (0, 1000) gives "1s" and (5, 0) gives "-5ms" |
| LoggingUtilities.FormatExecutionTimeWraps | src/main/java/dev/ash/core/aspects/logging/utils/LoggingUtils.java:154 | the subtraction wraps like Java's: from the largest `long` to the smallest is "1ms" |
| LoggingUtilities.DetermineLogLevel | src/main/java/dev/ash/core/aspects/logging/utils/LoggingUtils.java:183-188 | the level is INFO or one of the configured levels |
| LoggingUtilities.LevelResolution | src/main/java/dev/ash/core/aspects/logging/utils/LoggingUtils.java:183-188 | a configured profile gets its level and an unconfigured one gets INFO; no profile means "default"; with builder defaults every profile gets INFO |
| LoggingUtilities.ShouldLogBodyIgnoresSurroundings | src/main/java/dev/ash/core/aspects/logging/utils/LoggingUtils.java:214-224 | the media type may appear anywhere in the content type: text around it keeps body logging on |
| LoggingUtilities.ShouldLogBody | src/main/java/dev/ash/core/aspects/logging/utils/LoggingUtils.java:214-224 | definition; its properties are `ShouldLogBodyIgnoresSurroundings`, `ShouldLogBodyExamples` and `ExtractedBody` |
| LoggingUtilities.ShouldLogBodyExamples | src/main/java/dev/ash/core/aspects/logging/utils/LoggingUtils.java:214-224 | JSON (with or without charset) and text/plain pass; a null content type or body inclusion off fails |
| LoggingUtilities.ExtractedBody | src/main/java/dev/ash/core/aspects/logging/utils/LoggingUtils.java:128-144 | the gate gives the "disabled for content type" placeholder; empty content gives ""; otherwise the decoded text, or "[Error extracting body]" with a warning when decoding fails |
| LoggingUtilities.CorrelationId | src/main/java/dev/ash/core/aspects/logging/utils/LoggingUtils.java:168-171 | a non-blank X-Correlation-ID header is used as it is; otherwise (absent or blank) the generated id is used |
| LoggingUtilities.RequestMessage | src/main/java/dev/ash/core/aspects/logging/utils/LoggingUtils.java:226-245 | the message starts with "Incoming Request \| Method: M \| Path: P" and is exactly that when no segment is enabled |
| LoggingUtilities.RequestMessageIgnoresExcluded | src/main/java/dev/ash/core/aspects/logging/utils/LoggingUtils.java:232-242 | a part whose flag is off never affects the message, and a blank body counts as no body |
| LoggingUtilities.RequestMessageOrder | src/main/java/dev/ash/core/aspects/logging/utils/LoggingUtils.java:226-238 | headers then query parameters follow the prefix, in that order |
| LoggingUtilities.RequestMessageSegments | src/main/java/dev/ash/core/aspects/logging/utils/LoggingUtils.java:226-245 | each enabled segment appears: headers right after the prefix, query parameters after the headers (or right after the prefix), a non-blank body last; the length is the prefix plus exactly the enabled segments |
| LoggingUtilities.ResponseMessage | src/main/java/dev/ash/core/aspects/logging/utils/LoggingUtils.java:247-261 | the message starts with "Outgoing Response \| Status: code" and is exactly that when neither body nor time is included |
| LoggingUtilities.ResponseMessageProperties | src/main/java/dev/ash/core/aspects/logging/utils/LoggingUtils.java:247-261 | the status reads back from the message; parts whose flag is off never affect it |
| LoggingUtilities.ResponseMessageSegments | src/main/java/dev/ash/core/aspects/logging/utils/LoggingUtils.java:247-261 | each enabled segment appears: a non-blank body right after the status, the execution time (or "null") last; the length is the prefix plus exactly the enabled segments |
| LoggingUtilities.CreateMaskTemplate | src/main/java/dev/ash/core/aspects/logging/utils/LoggingUtils.java:206-212 | with nothing visible the template is eight times as long as the mask string; otherwise it starts with "$1" and is two characters longer than that (its content is stated by `ReplacementShape`) |
| LoggingUtilities.Replacements | src/main/java/dev/ash/core/aspects/logging/utils/LoggingUtils.java:201 | there is one replacement per match |
| LoggingUtilities.ReplacementShape | src/main/java/dev/ash/core/aspects/logging/utils/LoggingUtils.java:201-212 | each match becomes exactly eight mask strings, or group 1's text followed by eight mask strings |
| LoggingUtilities.Expand | src/main/java/dev/ash/core/aspects/logging/utils/LoggingUtils.java:201 | definition of how `replaceAll` reads a leading `$1` in the template; its property is `ReplacementShape` |
| LoggingUtilities.ReplaceAll | src/main/java/dev/ash/core/aspects/logging/utils/LoggingUtils.java:201 | with no match the input is returned; the only failure is "no group 1" when there are matches and the pattern has no group |
| LoggingUtilities.ApplyRule | src/main/java/dev/ash/core/aspects/logging/utils/LoggingUtils.java:197-201 | an uncompilable pattern throws `PatternSyntaxException`; every failure is that or "no group 1" |
| LoggingUtilities.RuleKeepsUnmatchedText | src/main/java/dev/ash/core/aspects/logging/utils/LoggingUtils.java:201 | a successful rule keeps the text between matches in place and puts each replacement where its match was |
| LoggingUtilities.Fold | src/main/java/dev/ash/core/aspects/logging/utils/LoggingUtils.java:195-203 | the loop can only fail with a pattern-syntax error or "no group 1" |
| LoggingUtilities.Mask | src/main/java/dev/ash/core/aspects/logging/utils/LoggingUtils.java:190-204 | blank content, or no rules, returns the content unchanged; any failure is a pattern-syntax error or "no group 1" |
| LoggingUtilities.FoldAppend | src/main/java/dev/ash/core/aspects/logging/utils/LoggingUtils.java:196-202 | running r1 ++ r2 runs r2 on the output of r1, unless r1 threw |
| LoggingUtilities.InvalidPatternAborts | src/main/java/dev/ash/core/aspects/logging/utils/LoggingUtils.java:196-202 | there is no per-rule catch: the first uncompilable pattern reached makes the whole call throw |
| LoggingUtilities.FailureStops | src/main/java/dev/ash/core/aspects/logging/utils/LoggingUtils.java:196-202 | once a rule throws, later rules change nothing and compile nothing |
| LoggingUtilities.FoldStep | src/main/java/dev/ash/core/aspects/logging/utils/LoggingUtils.java:196-202 | one turn of the loop: rule k runs on the output of the rules before it, and the cache gains its pattern if it compiles |
| LoggingUtilities.StopsAt | src/main/java/dev/ash/core/aspects/logging/utils/LoggingUtils.java:196-202 | the loop's result and its cache entries are fixed at the first rule that throws |
| LoggingUtilities.ExcludedFrom | src/main/java/dev/ash/core/aspects/logging/utils/LoggingUtils.java:178-181 | `anyMatch` from position k on: a null path is false; true only if some later pattern fully matches; a failure names an uncompilable pattern; when all compile it is exactly "some pattern matches" |
| LoggingUtilities.IsExcludedPath | src/main/java/dev/ash/core/aspects/logging/utils/LoggingUtils.java:178-181 | the same over the whole list: a null path is never excluded, and with all patterns valid the path is excluded iff some excluded pattern fully matches it |
| LoggingUtilities.LoggingEnabled | src/main/java/dev/ash/core/aspects/logging/utils/LoggingUtils.java:173-176 | off when the switch is off; on when the switch is on and no request URI is in the MDC; can only throw a pattern-syntax error |
| LoggingUtilities.Emit | src/main/java/dev/ash/core/aspects/logging/utils/LoggingUtils.java:59-74 | at most one line, from the `LoggingUtils` logger, and none when something throws |
| LoggingUtilities.EmitGate | src/main/java/dev/ash/core/aspects/logging/utils/LoggingUtils.java:59-74 | nothing is logged when disabled or when the path is excluded; otherwise exactly one line, at the resolved level, holding the masked message, unless masking throws |
| LoggingUtilities.EmittedLine | src/main/java/dev/ash/core/aspects/logging/utils/LoggingUtils.java:59-74 | with logging on, an emission that did not throw is exactly one line at the resolved level holding the successfully masked message |
| LoggingUtilities.LoggingUtils.constructor | src/main/java/dev/ash/core/aspects/logging/utils/LoggingUtils.java:36-40 | the cache starts empty |
| LoggingUtilities.LoggingUtils.InitializeContext | src/main/java/dev/ash/core/aspects/logging/utils/LoggingUtils.java:48-52 | returns the chosen correlation id and stores it under "correlationId", changing no other MDC key |
| LoggingUtilities.LoggingUtils.ClearContext | src/main/java/dev/ash/core/aspects/logging/utils/LoggingUtils.java:164-166 | removes "correlationId" and nothing else |
| LoggingUtilities.LoggingUtils.CompileCached | src/main/java/dev/ash/core/aspects/logging/utils/LoggingUtils.java:197-200 | `computeIfAbsent(source, Pattern::compile)`: the case-sensitive compilation or a pattern-syntax error; the cache gains exactly that entry on success |
| LoggingUtilities.LoggingUtils.MaskSensitiveData | src/main/java/dev/ash/core/aspects/logging/utils/LoggingUtils.java:190-204 | the loop's result is `Mask`, and the cache gains exactly the patterns the loop reached that compile |
| LoggingUtilities.LoggingUtils.LogMessage | src/main/java/dev/ash/core/aspects/logging/utils/LoggingUtils.java:59-74 | the lines logged, the cache entries and the escaping throwable are those of `Emit` |
| LoggingUtilities.LoggingUtils.LogRequest | src/main/java/dev/ash/core/aspects/logging/utils/LoggingUtils.java:59-74 | `logRequest` is `Emit` of the request message |
| LoggingUtilities.LoggingUtils.LogResponse | src/main/java/dev/ash/core/aspects/logging/utils/LoggingUtils.java:81-96 | `logResponse` is `Emit` of the response message |
| LoggingUtilities.LoggingUtils.ExtractRequestBody | src/main/java/dev/ash/core/aspects/logging/utils/LoggingUtils.java:104-120 | returns `ExtractedBody` of the wrapper; a warning is logged exactly when decoding failed |
| LoggingUtilities.LoggingUtils.ExtractResponseBody | src/main/java/dev/ash/core/aspects/logging/utils/LoggingUtils.java:128-144 | a null wrapper throws `NullPointerException` with nothing logged; otherwise as for the request |
| Interceptor.QueryParams | src/main/java/dev/ash/core/aspects/logging/aspect/RequestResponseLoggingAspect.java:171-188 | the map is empty when query parameters are excluded or the query string is null |
| Interceptor.ParamsOf | src/main/java/dev/ash/core/aspects/logging/aspect/RequestResponseLoggingAspect.java:178-184 | definition of the `put` calls; its properties are `ParamsOfKeys`, `LastPairWins` and `ParamsOfLast` |
| Interceptor.ParamsOfKeys | src/main/java/dev/ash/core/aspects/logging/aspect/RequestResponseLoggingAspect.java:179-184 | a key is present iff some segment splits into exactly two pieces with that key |
| Interceptor.LastPairWins | src/main/java/dev/ash/core/aspects/logging/aspect/RequestResponseLoggingAspect.java:179-184 | a key's value comes from its last two-piece segment |
| Interceptor.ParamsOfLast | src/main/java/dev/ash/core/aspects/logging/aspect/RequestResponseLoggingAspect.java:179-184 | one more segment is one more `put` of its two pieces when it splits into exactly two, and changes nothing otherwise |
| Interceptor.EmptyValueDropped | src/main/java/dev/ash/core/aspects/logging/aspect/RequestResponseLoggingAspect.java:180-181 | example: "a=" is dropped |
| Interceptor.ThreePiecesDropped | src/main/java/dev/ash/core/aspects/logging/aspect/RequestResponseLoggingAspect.java:180-181 | example: "a=b=c" is dropped |
| Interceptor.EmptyKeyKept | src/main/java/dev/ash/core/aspects/logging/aspect/RequestResponseLoggingAspect.java:180-182 | example: "=b" is kept under the key "" |
| Interceptor.TrailingSeparatorIgnored | src/main/java/dev/ash/core/aspects/logging/aspect/RequestResponseLoggingAspect.java:180-182 | example: "a=b=" gives a = b |
| Interceptor.AmpersandSplit | src/main/java/dev/ash/core/aspects/logging/aspect/RequestResponseLoggingAspect.java:179 | example: "x=1&x=2" splits into its two segments |
| Interceptor.LaterValueWins | src/main/java/dev/ash/core/aspects/logging/aspect/RequestResponseLoggingAspect.java:182 | example: of "x=1" and "x=2" the later value wins |
| Interceptor.QueryStringExample | src/main/java/dev/ash/core/aspects/logging/aspect/RequestResponseLoggingAspect.java:176-187 | example: the query string "x=1&x=2" gives {x=2} |
| Interceptor.Headers | src/main/java/dev/ash/core/aspects/logging/aspect/RequestResponseLoggingAspect.java:156-159 | the map is empty when headers are excluded |
| Interceptor.PutHeaders | src/main/java/dev/ash/core/aspects/logging/aspect/RequestResponseLoggingAspect.java:161-164 | definition of the `put` calls; its properties are `PutHeadersContents` and `HeadersExact` |
| Interceptor.PutHeadersContents | src/main/java/dev/ash/core/aspects/logging/aspect/RequestResponseLoggingAspect.java:161-164 | after the `put` loop the keys are exactly the names, each valued by `getHeader` |
| Interceptor.GetHeaderFolded | src/main/java/dev/ash/core/aspects/logging/aspect/RequestResponseLoggingAspect.java:164 | two spellings of one name find the same header |
| Interceptor.HeadersExact | src/main/java/dev/ash/core/aspects/logging/aspect/RequestResponseLoggingAspect.java:156-166 | with headers included there is exactly one entry per enumerated name, valued by `getHeader(name)` |
| Interceptor.HeaderLineRepresented | src/main/java/dev/ash/core/aspects/logging/aspect/RequestResponseLoggingAspect.java:161-164 | every header line appears under a spelling of its name, with that name's first value |
| Interceptor.RequestContextOf | src/main/java/dev/ash/core/aspects/logging/aspect/RequestResponseLoggingAspect.java:91-100 | the built context has the id, method, URI and start time; no request or response body, no execution time; end time and status 0 |
| Interceptor.ResponseContextOf | src/main/java/dev/ash/core/aspects/logging/aspect/RequestResponseLoggingAspect.java:108-113 | definition of the completed builder; its property is `ResponseContextReusesBuilder` |
| Interceptor.ResponseContextReusesBuilder | src/main/java/dev/ash/core/aspects/logging/aspect/RequestResponseLoggingAspect.java:108-113 | the response context keeps the request context's id, method, path, headers, query parameters and start time, and its execution time is the formatted difference |
| Interceptor.RequestMessageHasNoBody | src/main/java/dev/ash/core/aspects/logging/aspect/RequestResponseLoggingAspect.java:91-101 | the request message never has a body segment, because the request body is never set |
| Interceptor.AfterHandler | src/main/java/dev/ash/core/aspects/logging/aspect/RequestResponseLoggingAspect.java:104 | the response is null after the endpoint exactly when it was null before; a wrapper then reports the status, content type and body bytes the endpoint set, with its encoding kept |
| Interceptor.Responded | src/main/java/dev/ash/core/aspects/logging/aspect/RequestResponseLoggingAspect.java:107-123 | a return carries the endpoint's result, and its events are at most two utility lines then the body copy; a throw is an exception of the logging, with only utility lines |
| Interceptor.RespondedEvents | src/main/java/dev/ash/core/aspects/logging/aspect/RequestResponseLoggingAspect.java:107-121 | a completed response logs the decoding warning (if any), then the response message's emission, which did not throw, then the body copy |
| Interceptor.Proceeded | src/main/java/dev/ash/core/aspects/logging/aspect/RequestResponseLoggingAspect.java:104-123 | an endpoint exception passes through with no events; a null response gives an NPE; otherwise as `Responded` |
| Interceptor.LoggedAndProceeded | src/main/java/dev/ash/core/aspects/logging/aspect/RequestResponseLoggingAspect.java:100-123 | definition of the try block from `logRequest` on; its properties are `TryBlockShape`, `CompletedBlockOrder` and `MessagesAroundEndpoint` |
| Interceptor.TryBlock | src/main/java/dev/ash/core/aspects/logging/aspect/RequestResponseLoggingAspect.java:89-123 | definition of the try block; its properties are `TryBlockShape` and `SuccessOrder`, through `LoggedAndProceeded` |
| Interceptor.Intercept | src/main/java/dev/ash/core/aspects/logging/aspect/RequestResponseLoggingAspect.java:68-131 | definition of `logRequestResponse`; its properties are `BypassIsTransparent`, `ContextClearedOnEveryExit`, `ExceptionsLoggedAndRethrown`, `SuccessOrder` and `NullResponseFailsAfterHandler` |
| Interceptor.TryBlockShape | src/main/java/dev/ash/core/aspects/logging/aspect/RequestResponseLoggingAspect.java:100-123 | no advice error line inside the try block; a result is the endpoint's; if the endpoint throws, so does the block, with the endpoint's throwable when it ran; any other throwable is an Exception |
| Interceptor.BypassIsTransparent | src/main/java/dev/ash/core/aspects/logging/aspect/RequestResponseLoggingAspect.java:69-76 | disabled, or not a servlet request: only the endpoint runs, its outcome is returned, and nothing is logged, cached or put in the MDC |
| Interceptor.ContextClearedOnEveryExit | src/main/java/dev/ash/core/aspects/logging/aspect/RequestResponseLoggingAspect.java:128-130 | on every exit the MDC is the original without "correlationId" |
| Interceptor.ExceptionsLoggedAndRethrown | src/main/java/dev/ash/core/aspects/logging/aspect/RequestResponseLoggingAspect.java:123-127 | a thrown Exception comes after the advice's error line as the last event; a non-Exception throwable can only be the endpoint's, rethrown without that line; a result is the endpoint's, with no error line |
| Interceptor.CompletedBlockOrder | src/main/java/dev/ash/core/aspects/logging/aspect/RequestResponseLoggingAspect.java:100-123 | a completed try block is exactly: the request message's emission, the endpoint, the decoding warning if decoding failed, the emission of the response message built from the status and body the endpoint left, and the body copy; neither emission threw |
| Interceptor.MessagesAroundEndpoint | src/main/java/dev/ash/core/aspects/logging/aspect/RequestResponseLoggingAspect.java:100-121 | with logging on, a completed try block starts with the masked request message at the resolved level, then the endpoint, and ends with the masked response message, then the body copy |
| Interceptor.SuccessOrder | src/main/java/dev/ash/core/aspects/logging/aspect/RequestResponseLoggingAspect.java:100-123 | on success past the gates the events are exactly the request message's emission, the endpoint, the decoding warning if any, the response message's emission and the body copy, with the correlation id in the MDC |
| Interceptor.NullResponseFailsAfterHandler | src/main/java/dev/ash/core/aspects/logging/aspect/RequestResponseLoggingAspect.java:104-121 | with a null response an endpoint that returned is followed by an NPE, which is logged and rethrown; nothing is copied |
| Interceptor.RequestResponseLoggingAspect.constructor | src/main/java/dev/ash/core/aspects/logging/aspect/RequestResponseLoggingAspect.java:31-35 | the advice holds the given utilities and properties |
| Interceptor.RequestResponseLoggingAspect.ExtractQueryParams | src/main/java/dev/ash/core/aspects/logging/aspect/RequestResponseLoggingAspect.java:171-188 | the split-and-put loop gives `QueryParams` |
| Interceptor.RequestResponseLoggingAspect.ExtractHeaders | src/main/java/dev/ash/core/aspects/logging/aspect/RequestResponseLoggingAspect.java:156-166 | the `put` loop over the header names gives `Headers` |
| Interceptor.RequestResponseLoggingAspect.LogRequestResponse | src/main/java/dev/ash/core/aspects/logging/aspect/RequestResponseLoggingAspect.java:68-131 | the outcome, the new MDC, the appended events and the cache growth are those of `Intercept` |
| Interceptor.RequestResponseLoggingAspect.BuildRequestContext | src/main/java/dev/ash/core/aspects/logging/aspect/RequestResponseLoggingAspect.java:91-100 | the builder calls give `RequestContextOf` |
| Interceptor.RequestResponseLoggingAspect.RunTryBlock | src/main/java/dev/ash/core/aspects/logging/aspect/RequestResponseLoggingAspect.java:89-124 | the try block's outcome, events and cache growth are those of `TryBlock` |
| Interceptor.RequestResponseLoggingAspect.LogAndProceed | src/main/java/dev/ash/core/aspects/logging/aspect/RequestResponseLoggingAspect.java:100-104 | `logRequest`, then the endpoint only if nothing escaped, then the rest, as `LoggedAndProceeded` |
| Interceptor.RequestResponseLoggingAspect.Proceed | src/main/java/dev/ash/core/aspects/logging/aspect/RequestResponseLoggingAspect.java:104-123 | `proceed()` and the rest of the block, as `Proceeded` |
| Interceptor.RequestResponseLoggingAspect.Respond | src/main/java/dev/ash/core/aspects/logging/aspect/RequestResponseLoggingAspect.java:107-123 | body extraction, `logResponse` and the body copy, as `Responded` |

## Left out

- Regex engine internals: compilation, `find`, `matches`, group numbering and `CASE_INSENSITIVE` are a parameter (`Regex.Engine`). The model only assumes `find` reports in-bounds, left-to-right, non-overlapping spans.
- LoggingUtilities.ReplacementShape: states the per-match replacement only for mask strings without `$` or `\`, because `replaceAll` would interpret those characters.
- LoggingUtilities.Expand: reads only a leading `$1` in the template. Two cases are not modelled: a mask starting with a digit, which Java would read as part of the group number when the pattern has ten or more groups, and named groups.
- Charset decoding and `UnsupportedEncodingException` are a parameter (`decode`). `UUID.randomUUID()`, `System.currentTimeMillis()` and the `spring.profiles.active` system property are parameters too (`generatedId`, `startTime`/`endTime`, `activeProfile`).
- `HashMap.toString` is a parameter (`render`), so the order of entries in a rendered map is not modelled.
- The endpoint is a parameter (`Handler`): its outcome and what it writes into the response wrapper. It is assumed to leave the MDC and the logs alone, so `logResponse`'s exclusion gate reads the MDC as it was before the call, and `ContextClearedOnEveryExit` relies on that.
- Concurrency: `ConcurrentHashMap` atomicity and the thread-local MDC. The caches and the MDC are plain fields of one thread's state.
- Strings are sequences of Unicode code points, not UTF-16 units. Header-name case folding covers ASCII letters only.
- `copyBodyToResponse` is recorded as an event, and its `IOException` is not modelled. Byte caching inside the wrappers is not modelled either: the cached bytes are whatever the handler leaves.
- Null values inside configuration (a null `enabled`, a null level in an `EnvironmentConfig`, null lists) are not modelled, nor a null mask character or pattern. A null `content` passed to `DataMasker.maskSensitiveData` (returned unchanged by the `hasText` test) is not modelled: content is always a string. The null-to-default constructors are modelled.
- `RequestContext.additionalInfo` is never read by the core and is left out.
- The unused `ObjectMapper` field of `LoggingUtils` is left out. The never-parsed `AsyncConfig.timeout` is kept as data only.
- Spring wiring (`LoggingConfiguration`) and the AOP pointcut declarations are framework configuration without logic.
- `extractRequestBody` is modelled, but the advice never calls it, so request bodies never reach a message (`RequestMessageHasNoBody`).
- Servlet.HeaderNames: `getHeaderNames()` is modelled as listing each header name once, under the spelling of its first line, as servlet containers such as Tomcat do. The Servlet API itself does not fix the spelling or rule out repeats.
- Where the MDC's "requestUri" value comes from: the model takes the MDC as it finds it.
