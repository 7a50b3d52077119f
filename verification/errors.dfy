/**
 * The library-wide error type (`crate::Error`), its display strings, and the
 * retry policy attached to it: which errors are worth retrying and how long to
 * wait before the next attempt.
 */
module Errors {
  import opened Text

  /**
   * One constructor per variant. The wrapped `serde_json::Error` and
   * `std::io::Error` of `Serialization` and `Io` are represented by their
   * messages.
   */
  datatype Error =
    | Nats(message: string)
    | Serialization(message: string)
    | Io(message: string)
    | Custom(message: string)
    | LLMProvider(message: string)
    | LLMTimeout(timeout: u64)
    | LLMRateLimit(message: string)
    | LLMResponseFormat(message: string)
    | WorkflowValidation(message: string)

  /** `crate::Result<T>`. */
  datatype Result<+T> = Ok(value: T) | Err(error: Error)

  /** The longest back-off the policy ever asks for, in milliseconds. */
  const MaxRetryDelayMs: u64 := 5000

  /** Milliseconds to wait before retrying after `e`; zero for errors that are not retried. */
  function RetryDelayMs(e: Error): (d: u64)
    ensures d <= MaxRetryDelayMs
  {
    match e
    case LLMTimeout(_) => 1000
    case LLMRateLimit(_) => 5000
    case Nats(_) => 500
    case _ => 0
  }

  /** Whether a failed operation may be attempted again: exactly the errors with a back-off. */
  function IsRetryable(e: Error): (r: bool)
    ensures r <==> RetryDelayMs(e) > 0
  {
    e.LLMTimeout? || e.LLMRateLimit? || e.Nats?
  }

  /** The retry table, variant by variant. */
  lemma RetryPolicyTable(e: Error)
    ensures IsRetryable(e) <==> e.LLMTimeout? || e.LLMRateLimit? || e.Nats?
    ensures e.LLMTimeout? ==> RetryDelayMs(e) == 1000
    ensures e.LLMRateLimit? ==> RetryDelayMs(e) == 5000
    ensures e.Nats? ==> RetryDelayMs(e) == 500
    ensures !IsRetryable(e) ==> RetryDelayMs(e) == 0
  {
  }

  /**
   * The `Display` text `thiserror` derives from the `#[error]` attributes: a
   * fixed text per variant followed by the wrapped message (or, for a
   * timeout, the seconds and "s").
   */
  function Display(e: Error): (s: string)
    ensures !e.LLMTimeout? ==> |e.message| < |s| && s[|s| - |e.message|..] == e.message
    ensures e.LLMTimeout? ==> |TimeoutPrefix| < |s| && s[..|TimeoutPrefix|] == TimeoutPrefix && s[|TimeoutPrefix|..] == NatToString(e.timeout) + "s"
  {
    match e
    case Nats(m) => "NATS error: " + m
    case Serialization(m) => "Serialization error: " + m
    case Io(m) => "I/O error: " + m
    case Custom(m) => "Custom error: " + m
    case LLMProvider(m) => "LLM provider error: " + m
    case LLMTimeout(t) => "LLM API timeout after " + NatToString(t) + "s"
    case LLMRateLimit(m) => "LLM rate limit exceeded: " + m
    case LLMResponseFormat(m) => "Invalid LLM response format: " + m
    case WorkflowValidation(m) => "Workflow validation error: " + m
  }

  const TimeoutPrefix := "LLM API timeout after "

  /** The first five characters of each variant's fixed text; no two variants share them. */
  function Tag(e: Error): string {
    match e
    case Nats(_) => "NATS "
    case Serialization(_) => "Seria"
    case Io(_) => "I/O e"
    case Custom(_) => "Custo"
    case LLMProvider(_) => "LLM p"
    case LLMTimeout(_) => "LLM A"
    case LLMRateLimit(_) => "LLM r"
    case LLMResponseFormat(_) => "Inval"
    case WorkflowValidation(_) => "Workf"
  }

  /** Each display text starts with its variant's tag. */
  lemma DisplayStartsWithTag(e: Error)
    ensures |Display(e)| >= 5 && Display(e)[..5] == Tag(e)
  {
  }

  /** Errors are told apart by their text: two errors that display alike are the same error. */
  lemma DisplayInjective(e1: Error, e2: Error)
    requires Display(e1) == Display(e2)
    ensures e1 == e2
  {
    var d := Display(e1);
    DisplayStartsWithTag(e1);
    DisplayStartsWithTag(e2);
    assert Tag(e1) == Tag(e2);
    if e1.LLMTimeout? {
      assert NatToString(e1.timeout) == d[|TimeoutPrefix|..|d| - 1] == NatToString(e2.timeout);
      DigitsValueOfNatToString(e1.timeout);
      DigitsValueOfNatToString(e2.timeout);
    } else {
      assert |Display(e1)| - |e1.message| == |Display(e2)| - |e2.message|;
    }
  }

  /**
   * The timeout message carries the duration in plain decimal seconds: the
   * text between the fixed prefix and the trailing "s" reads back as `t`.
   */
  lemma TimeoutDisplayRoundTrip(t: u64)
    ensures var d := Display(LLMTimeout(t));
      && |d| > |TimeoutPrefix| + 1
      && d[..|TimeoutPrefix|] == TimeoutPrefix
      && d[|d| - 1] == 's'
      && AllDigits(d[|TimeoutPrefix|..|d| - 1])
      && DigitsValue(d[|TimeoutPrefix|..|d| - 1]) == t
  {
    var d := Display(LLMTimeout(t));
    assert d[|TimeoutPrefix|..|d| - 1] == NatToString(t);
    DigitsValueOfNatToString(t);
  }
}
