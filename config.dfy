/**
 * The server configuration and its validation (src/config.go).
 *
 * `Validate` checks the fields in a fixed order (port, then limit, then
 * window) and reports the first violation, or nothing.  The texts of the
 * limit and window errors say "greater than 0", but the checks reject only
 * negative values: zero passes.
 */
module Configuration {
  import opened Outcome
  import Decimal

  /** Go `int` fields; no arithmetic is done on them, so width does not matter. */
  datatype Config = Config(port: int, limit: int, window: int)

  /** The three error values the validator can return. */
  datatype ConfigError = PortValueError | LimitValueError | WindowValueError

  const MinPort := 1024
  const MaxPort := 65353

  /** The text each error value carries; the port text names the range `Validate` enforces. */
  function Message(e: ConfigError): (s: string)
    ensures e == PortValueError ==>
              s == "port should be in the range [" + Decimal.FormatInt(MinPort) + ", " + Decimal.FormatInt(MaxPort) + "]"
  {
    match e
    case PortValueError => "port should be in the range [1024, 65353]"
    case LimitValueError => "limit should be greater than 0"
    case WindowValueError => "window should be greater than 0"
  }

  /** The configurations the validator lets through, stated field by field. */
  predicate Acceptable(c: Config) {
    && MinPort <= c.port <= MaxPort
    && 0 <= c.limit
    && 0 <= c.window
  }

  /** `Config.Validate`: `None` is a nil error. */
  function Validate(c: Config): (err: Option<ConfigError>)
    ensures err.None? <==> Acceptable(c)
    ensures err == Some(PortValueError) <==> !(MinPort <= c.port <= MaxPort)
    ensures err == Some(LimitValueError) <==> MinPort <= c.port <= MaxPort && c.limit < 0
    ensures err == Some(WindowValueError) <==> MinPort <= c.port <= MaxPort && 0 <= c.limit && c.window < 0
  {
    if c.port < MinPort || c.port > MaxPort then
      Some(PortValueError)
    else if c.limit < 0 then
      Some(LimitValueError)
    else if c.window < 0 then
      Some(WindowValueError)
    else
      None
  }

  /** An out-of-range port is reported whatever the limit and window are. */
  lemma PortCheckTakesPrecedence(c: Config, limit: int, window: int)
    requires c.port < MinPort || MaxPort < c.port
    ensures Validate(c.(limit := limit, window := window)) == Some(PortValueError)
  {
  }

  /** A negative limit is reported before a negative window. */
  lemma LimitCheckBeforeWindow(c: Config)
    requires MinPort <= c.port <= MaxPort && c.limit < 0 && c.window < 0
    ensures Validate(c) == Some(LimitValueError)
  {
  }

  /**
   * Zero is accepted for both limit and window, although the texts of
   * `LimitValueError` and `WindowValueError` ask for values greater than 0.
   */
  lemma ZeroLimitAndWindowAccepted(port: int)
    requires MinPort <= port <= MaxPort
    ensures Validate(Config(port, 0, 0)) == None
  {
  }

  /** The three configurations of the package's own tests. */
  lemma ValidateExamples()
    ensures Validate(Config(999999, 60, 60)) == Some(PortValueError)
    ensures Validate(Config(8080, -1, 60)) == Some(LimitValueError)
    ensures Validate(Config(8080, 60, -1)) == Some(WindowValueError)
    ensures Validate(Config(8080, 60, 60)) == None
  {
  }
}
