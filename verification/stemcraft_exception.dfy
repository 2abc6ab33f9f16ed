/**
 * `STEMCraftException`: a runtime exception that logs itself when it is
 * made. Its `getStackTrace` is the same code as the library's, so the lines
 * are those of `STEMCraftLib.Trace`; what is particular to the exception is
 * which throwable each constructor logs and what precedes the trace.
 */
module STEMCraftException {
  import opened JString
  import opened STEMCraftLib

  /**
   * How the exception was made. `self` is the chain that starts at the new
   * exception itself; `cause` the chain of the throwable passed in (empty
   * for `null`).
   */
  datatype Construction =
    | Plain(self: seq<Throwable>)
    | Wrapping(cause: seq<Throwable>)
    | Described(self: seq<Throwable>, message: string)
    | DescribedWrapping(message: string, cause: seq<Throwable>)

  /** The throwable each constructor passes to `log`. */
  function Logged(c: Construction): seq<Throwable> {
    match c
    case Plain(self) => self
    case Wrapping(cause) => cause
    case Described(self, _) => self
    case DescribedWrapping(_, cause) => cause
  }

  /** The extra messages each constructor passes to `log`. */
  function Messages(c: Construction): seq<string> {
    match c
    case Plain(_) => []
    case Wrapping(_) => []
    case Described(_, message) => [message]
    case DescribedWrapping(message, _) => [message]
  }

  /**
   * The lines `log` joins with newlines and writes at SEVERE level: a banner
   * naming the plugin and its version, the messages, then the stack trace.
   */
  function LogLines(pluginName: string, version: string, c: Construction): (r: seq<string>)
    ensures |r| == 1 + |Messages(c)| + |Trace(Logged(c))|
    ensures r[0] == pluginName + " " + version + " encountered a series error"
    ensures c.Described? || c.DescribedWrapping? ==> r[1] == c.message
    ensures r[1 + |Messages(c)|..] == Trace(Logged(c))
  {
    [pluginName + " " + version + " encountered a series error"] + Messages(c) + Trace(Logged(c))
  }

  /**
   * A wrapping exception logs the trace of the throwable it wraps, never
   * its own: with a `null` cause the trace is the single "Unknown error".
   */
  lemma WrappingNullLogsUnknown(pluginName: string, version: string, message: string)
    ensures LogLines(pluginName, version, DescribedWrapping(message, []))
            == [pluginName + " " + version + " encountered a series error", message, "Unknown error"]
  {
  }

  /** The logged trace has one header per throwable of the logged chain. */
  lemma LoggedHeaders(pluginName: string, version: string, c: Construction)
    requires Logged(c) != []
    requires forall t :: t in Logged(c) ==> PlainName(t)
    ensures CountHeaders(LogLines(pluginName, version, c)[1 + |Messages(c)|..]) == |Logged(c)|
  {
    OneHeaderPerThrowable(Logged(c));
  }
}
