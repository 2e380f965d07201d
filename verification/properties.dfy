/** The logging configuration (`library.logging.*`) and its nested groups. */
module Properties {
  import opened Wrappers
  import opened LogLevels
  import opened Models

  /** Which parts of a call are written into the log messages. */
  datatype InclusionConfig = InclusionConfig(headers: bool, queryParams: bool, body: bool, performance: bool)

  /** The no-argument constructor: everything included. */
  function NewInclusionConfig(): (r: InclusionConfig)
    ensures r.headers && r.queryParams && r.body && r.performance
  {
    InclusionConfig(true, true, true, true)
  }

  /** The four-argument constructor: each null (None) argument becomes true on its own,
      each non-null argument is kept. */
  function InclusionConfigOf(headers: Option<bool>, queryParams: Option<bool>, body: Option<bool>, performance: Option<bool>): (r: InclusionConfig)
    ensures headers.Some? ==> r.headers == headers.value
    ensures queryParams.Some? ==> r.queryParams == queryParams.value
    ensures body.Some? ==> r.body == body.value
    ensures performance.Some? ==> r.performance == performance.value
    ensures headers.None? ==> r.headers
    ensures queryParams.None? ==> r.queryParams
    ensures body.None? ==> r.body
    ensures performance.None? ==> r.performance
  {
    InclusionConfig(headers.GetOr(true), queryParams.GetOr(true), body.GetOr(true), performance.GetOr(true))
  }

  /** Asynchronous logging settings; nothing in the core reads them. */
  datatype AsyncConfig = AsyncConfig(enabled: bool, timeout: string)

  /** The no-argument constructor: enabled, timeout "30s". */
  function NewAsyncConfig(): (r: AsyncConfig)
    ensures r.enabled && r.timeout == "30s"
  {
    AsyncConfig(true, "30s")
  }

  /** The two-argument constructor: null enabled becomes true, null timeout "30s". */
  function AsyncConfigOf(enabled: Option<bool>, timeout: Option<string>): (r: AsyncConfig)
    ensures enabled.Some? ==> r.enabled == enabled.value
    ensures timeout.Some? ==> r.timeout == timeout.value
    ensures enabled.None? ==> r.enabled
    ensures timeout.None? ==> r.timeout == "30s"
  {
    AsyncConfig(enabled.GetOr(true), timeout.GetOr("30s"))
  }

  /** The minimum level configured for one deployment environment. */
  datatype EnvironmentConfig = EnvironmentConfig(level: LogLevel)

  datatype LoggingProperties = LoggingProperties(
    enabled: bool,
    excludedPaths: seq<string>,
    maskPatterns: seq<MaskingPattern>,
    inclusion: InclusionConfig,
    async: AsyncConfig,
    environments: map<string, EnvironmentConfig>)

  /** `LoggingProperties.builder().enabled(enabled).build()`: every other field takes
      its builder default. */
  function BuilderDefaults(enabled: bool): (r: LoggingProperties)
    ensures r.enabled == enabled
    ensures r.excludedPaths == [] && r.maskPatterns == [] && r.environments == map[]
    ensures r.inclusion == NewInclusionConfig() && r.async == NewAsyncConfig()
  {
    LoggingProperties(enabled, [], [], NewInclusionConfig(), NewAsyncConfig(), map[])
  }
}
