/**
 * The process-wide state the logging core touches: the MDC (mapped diagnostic
 * context), what the SLF4J loggers receive, the `spring.profiles.active` system
 * property, and the Java throwables that can cross the core.
 */
module Runtime {
  import opened Wrappers
  import opened LogLevels

  /** The three classes that own an SLF4J logger. */
  datatype Logger = MaskerLogger | UtilsLogger | AspectLogger

  datatype Throwable =
    | PatternSyntax(pattern: string)   // PatternSyntaxException from Pattern.compile
    | NoSuchGroup(group: nat)          // IndexOutOfBoundsException for "$1" without group 1
    | NullPointer                      // NullPointerException
    | HandlerException(name: string)   // an Exception thrown by the intercepted endpoint
    | HandlerError(name: string)       // a Throwable that is not an Exception (an Error)

  /** Whether `catch (Exception e)` catches it. */
  predicate IsException(t: Throwable) {
    !t.HandlerError?
  }

  /** What can be observed from outside: a line handed to a logger at a level, the
      intercepted endpoint being run, and the cached response body being written to
      the real response. */
  datatype Event =
    | Log(logger: Logger, level: LogLevel, message: string)
    | HandlerInvoked
    | BodyCopiedToResponse

  /** The JVM-wide state, for one thread of execution. */
  class Host {
    var mdc: map<string, string>
    var events: seq<Event>
    var activeProfile: Option<string>

    constructor(profile: Option<string>)
      ensures mdc == map[] && events == [] && activeProfile == profile
    {
      mdc := map[];
      events := [];
      activeProfile := profile;
    }
  }
}
