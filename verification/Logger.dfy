/**
 * The component logger: each of its five methods compares the configured
 * numeric level with its own threshold and, when it passes, makes one call
 * on the same-named method of the underlying console with a
 * "[LEVEL][COMPONENT]: " prefix and the extra arguments unchanged.
 */
module Logging {
  import opened Types
  import opened Text

  /** The numeric values of the `LogLevel` enumeration. */
  const TraceValue: int := 400
  const DebugValue: int := 300
  const InfoValue: int := 200
  const WarnValue: int := 100
  const ErrorValue: int := 0
  const DisabledValue: int := -1

  /** The five logging methods (and the five console methods they call). */
  datatype Level = Trace | Debug | Info | Warn | Error

  function Threshold(level: Level): int {
    match level
    case Trace => TraceValue
    case Debug => DebugValue
    case Info => InfoValue
    case Warn => WarnValue
    case Error => ErrorValue
  }

  function Tag(level: Level): string {
    match level
    case Trace => "TRACE"
    case Debug => "DEBUG"
    case Info => "INFO"
    case Warn => "WARN"
    case Error => "ERROR"
  }

  /** The guard of each method exactly as the logger writes it. */
  predicate Guard(logLevel: int, level: Level) {
    match level
    case Error => logLevel >= ErrorValue
    case _ => logLevel > DisabledValue && logLevel >= Threshold(level)
  }

  /** One call on the underlying console. */
  datatype BaseCall<P> = BaseCall(channel: Level, text: string, params: seq<P>)

  function Prefix(level: Level, componentName: string): string {
    "[" + Tag(level) + "][" + Upper(componentName) + "]: "
  }

  /**
   * The effect of `logger.<level>(message, ...params)` for a logger built
   * with `componentName` and `logLevel`: at most one console call.
   */
  function Log<P>(componentName: string, logLevel: int, level: Level, message: string, params: seq<P>)
    : (r: Option<BaseCall<P>>)
    ensures r.Some? <==> logLevel >= Threshold(level)
    ensures r.Some? ==> r.value.channel == level && r.value.params == params
    ensures r.Some? ==> r.value.text == "[" + Tag(level) + "][" + Upper(componentName) + "]: " + message
  {
    if Guard(logLevel, level) then Some(BaseCall(level, Prefix(level, componentName) + message, params))
    else None
  }

  /** At `Disabled` no method emits anything. */
  lemma DisabledIsSilent<P>(componentName: string, level: Level, message: string, params: seq<P>)
    ensures Log(componentName, DisabledValue, level, message, params).None?
  {
  }

  /** Whatever is emitted at one level is emitted at every higher level too. */
  lemma Monotone<P>(componentName: string, low: int, high: int, level: Level, message: string, params: seq<P>)
    requires low <= high
    ensures Log(componentName, low, level, message, params).Some? ==>
            Log(componentName, high, level, message, params) == Log(componentName, low, level, message, params)
  {
  }
}
