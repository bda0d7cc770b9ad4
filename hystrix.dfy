/**
 * The circuit-breaker configuration step of the clientx packages: a
 * command's settings get defaults for their zero fields and, when the
 * command is enabled, are registered with hystrix.
 */
module Hystrix {
  import opened Go
  import opened ClientTypes

  const DefaultHytrixTimeout: int := 3000
  const DefaultHytrixMaxConcurrentRequests: int := 100
  const DefaultRequestVolumeThreshold: int := 10
  const DefaultHytrixSleepWindow: int := 1000
  const DefaultHytrixErrorPercentThreshold: int := 25

  /** hystrix.CommandConfig: what a registered command is configured with. */
  datatype CommandConfig = CommandConfig(
    timeout: int,
    maxConcurrentRequests: int,
    requestVolumeThreshold: int,
    sleepWindow: int,
    errorPercentThreshold: int)

  /** hystrix's process-wide table of command settings. */
  class Registry {
    var commands: map<string, CommandConfig>

    constructor ()
      ensures commands == map[]
    {
      commands := map[];
    }

    /** hystrix.ConfigureCommand: the settings are stored under the name, replacing earlier ones. */
    method ConfigureCommand(name: string, config: CommandConfig)
      modifies this
      ensures commands == old(commands)[name := config]
    {
      commands := commands[name := config];
    }
  }

  /** Go's int is 64 bits wide: every command timeout fits an int64. */
  predicate TimeoutsAreInt64(h: HytrixCfg) {
    forall n :: n in h.commandSetting ==> IsInt64(h.commandSetting[n].timeout)
  }

  /**
   * The settings after ConfigureCommand's defaulting: each zero tuning field
   * takes its default, every non-zero field is kept, the rest is untouched.
   */
  function Defaulted(s: HytrixCommandCfg): (d: HytrixCommandCfg)
    ensures d.enabled == s.enabled && d.retryCount == s.retryCount
    ensures d.timeout != 0 && d.maxConcurrentRequest != 0 && d.requestVolumeThreshold != 0
    ensures d.sleepWindow != 0 && d.errorPercentThreshold != 0
    ensures s.timeout != 0 ==> d.timeout == s.timeout
    ensures s.maxConcurrentRequest != 0 ==> d.maxConcurrentRequest == s.maxConcurrentRequest
    ensures s.requestVolumeThreshold != 0 ==> d.requestVolumeThreshold == s.requestVolumeThreshold
    ensures s.sleepWindow != 0 ==> d.sleepWindow == s.sleepWindow
    ensures s.errorPercentThreshold != 0 ==> d.errorPercentThreshold == s.errorPercentThreshold
    ensures s.timeout == 0 ==> d.timeout == DefaultHytrixTimeout
    ensures s.maxConcurrentRequest == 0 ==> d.maxConcurrentRequest == DefaultHytrixMaxConcurrentRequests
    ensures s.requestVolumeThreshold == 0 ==> d.requestVolumeThreshold == DefaultRequestVolumeThreshold
    ensures s.sleepWindow == 0 ==> d.sleepWindow == DefaultHytrixSleepWindow
    ensures s.errorPercentThreshold == 0 ==> d.errorPercentThreshold == DefaultHytrixErrorPercentThreshold
  {
    s.(timeout := if s.timeout == 0 then DefaultHytrixTimeout else s.timeout,
       maxConcurrentRequest := if s.maxConcurrentRequest == 0 then DefaultHytrixMaxConcurrentRequests else s.maxConcurrentRequest,
       requestVolumeThreshold := if s.requestVolumeThreshold == 0 then DefaultRequestVolumeThreshold else s.requestVolumeThreshold,
       sleepWindow := if s.sleepWindow == 0 then DefaultHytrixSleepWindow else s.sleepWindow,
       errorPercentThreshold := if s.errorPercentThreshold == 0 then DefaultHytrixErrorPercentThreshold else s.errorPercentThreshold)
  }

  /** Defaulting twice is defaulting once. */
  lemma DefaultedIdempotent(s: HytrixCommandCfg)
    ensures Defaulted(Defaulted(s)) == Defaulted(s)
  {
  }

  /**
   * durationToInt: the quotient duration / unit truncated toward zero; the
   * clamp to math.MaxInt64 is never taken, since an int64 quotient cannot exceed it.
   */
  function DurationToInt(duration: Duration, unit: Duration): (r: int)
    requires IsInt64(duration) && unit > 0
    ensures IsInt64(r)
    ensures r == Quo(duration, unit)
  {
    QuoBetweenZeroAndDividend(duration, unit);
    var durationAsNumber := Quo(duration, unit);
    if durationAsNumber > MaxInt64 then MaxInt64 else durationAsNumber
  }

  /**
   * The hystrix settings of a command: the defaulted fields, with the timeout
   * read as a time.Duration (nanoseconds) and converted to milliseconds.
   */
  function Registration(s: HytrixCommandCfg): CommandConfig
    requires IsInt64(s.timeout)
  {
    var d := Defaulted(s);
    CommandConfig(DurationToInt(d.timeout, Millisecond), d.maxConcurrentRequest,
                  d.requestVolumeThreshold, d.sleepWindow, d.errorPercentThreshold)
  }

  /**
   * Every configured timeout below one million, the 3000 default included,
   * is registered as a timeout of 0 ms.
   */
  lemma RegisteredTimeoutTruncated(s: HytrixCommandCfg)
    requires IsInt64(s.timeout)
    ensures -Millisecond < Defaulted(s).timeout < Millisecond ==> Registration(s).timeout == 0
    ensures s.timeout == 0 ==> Registration(s).timeout == 0
    ensures Registration(s).timeout * Millisecond <= Defaulted(s).timeout || Defaulted(s).timeout < 0
  {
  }
}
