/** The value types of the logging core: a masking rule and the per-call request context. */
module Models {
  import opened Wrappers

  /** One masking rule: a regular expression, the mask text and how many leading
      characters of a match stay visible. */
  datatype MaskingPattern = MaskingPattern(pattern: string, maskCharacter: string, visibleCharacters: int)

  /** The builder's defaults: mask "*" and nothing visible. */
  function DefaultMaskingPattern(pattern: string): (r: MaskingPattern)
    ensures r.pattern == pattern && r.maskCharacter == "*" && r.visibleCharacters == 0
  {
    MaskingPattern(pattern, "*", 0)
  }

  /** The Java `long` range: timestamps are 64-bit. */
  newtype Long = x: int | -0x8000_0000_0000_0000 <= x < 0x8000_0000_0000_0000

  /** The per-call record. Fields the builder may leave unset are optional; the
      numeric fields the builder leaves unset read as 0. */
  datatype RequestContext = RequestContext(
    correlationId: string,
    httpMethod: string,
    path: string,
    headers: map<string, string>,
    queryParams: map<string, string>,
    requestBody: Option<string>,
    responseBody: Option<string>,
    startTime: Long,
    endTime: Long,
    executionTime: Option<string>,
    statusCode: int)
}
