/**
 * The provider-independent part of the LLM client: the bounded retry loop
 * around an LLM operation, the fixed retry count of the "safe" wrapper, and
 * the mock provider that answers from a table of canned responses.
 *
 * The operation is a function from the attempt index (0, 1, ...) to the
 * outcome that attempt would produce, and the sleeps between attempts are
 * returned as the list of delays (in milliseconds) that were requested.
 */
module LlmClient {
  import opened Wrappers
  import opened Text
  import opened Json
  import opened Errors

  // ---------------------------------------------------------------------------
  // Retry loop
  // ---------------------------------------------------------------------------

  /** The retry count `safe_llm_operation` passes to the loop. */
  const SafeMaxRetries: u32 := 3

  /**
   * `retry_llm_operation`: attempts 0..=maxRetries in order. A success is
   * returned at once; a retryable error before the last attempt requests a
   * sleep of its retry delay and goes on; any other error is returned as is.
   */
  method RetryLlmOperation<T>(op: nat -> Result<T>, maxRetries: u32)
    returns (r: Result<T>, calls: nat, delays: seq<u64>)
    ensures 1 <= calls <= maxRetries as nat + 1
    ensures r == op(calls - 1)
    ensures forall j :: 0 <= j < calls - 1 ==> op(j).Err? && IsRetryable(op(j).error)
    ensures r.Err? && calls - 1 < maxRetries as nat ==> !IsRetryable(r.error)
    ensures |delays| == calls - 1
    ensures forall j :: 0 <= j < |delays| ==> op(j).Err? && delays[j] == RetryDelayMs(op(j).error)
  {
    var lastError := Custom("No attempts made");
    calls := 0;
    delays := [];
    var attempt: nat := 0;
    while attempt <= maxRetries as nat
      invariant attempt <= maxRetries as nat
      invariant calls == attempt && |delays| == attempt
      invariant forall j :: 0 <= j < attempt ==> op(j).Err? && IsRetryable(op(j).error)
      invariant forall j :: 0 <= j < attempt ==> delays[j] == RetryDelayMs(op(j).error)
      decreases maxRetries as nat - attempt
    {
      var outcome := op(attempt);
      calls := calls + 1;
      match outcome {
        case Ok(_) =>
          r := outcome;
          return;
        case Err(error) =>
          if attempt < maxRetries as nat && IsRetryable(error) {
            delays := delays + [RetryDelayMs(error)];
            lastError := error;
          } else {
            r := outcome;
            return;
          }
      }
      attempt := attempt + 1;
    }
    assert false;
    r := Err(lastError);
  }

  /**
   * `safe_llm_operation`: the retry loop with three retries, so at most four
   * attempts; only retryable failures lead to another attempt, each after its
   * own back-off, and the result is passed through unchanged.
   */
  method SafeLlmOperation<T>(op: nat -> Result<T>) returns (r: Result<T>, calls: nat, delays: seq<u64>)
    ensures 1 <= calls <= 4
    ensures r == op(calls - 1)
    ensures forall j :: 0 <= j < calls - 1 ==> op(j).Err? && IsRetryable(op(j).error)
    ensures r.Err? && calls < 4 ==> !IsRetryable(r.error)
    ensures |delays| == calls - 1
    ensures forall j :: 0 <= j < |delays| ==> op(j).Err? && delays[j] == RetryDelayMs(op(j).error)
  {
    r, calls, delays := RetryLlmOperation(op, SafeMaxRetries);
  }

  /**
   * If the first `k` attempts fail with retryable errors and attempt `k` (counting
   * from 0) succeeds, with `k <= maxRetries`, the success is returned after
   * exactly `k + 1` calls and `k` sleeps.
   */
  method SucceedsAfterRetries<T>(op: nat -> Result<T>, maxRetries: u32, k: nat)
    returns (r: Result<T>, calls: nat, delays: seq<u64>)
    requires k <= maxRetries as nat
    requires forall j :: 0 <= j < k ==> op(j).Err? && IsRetryable(op(j).error)
    requires op(k).Ok?
    ensures r == op(k) && r.Ok?
    ensures calls == k + 1 && |delays| == k
  {
    r, calls, delays := RetryLlmOperation(op, maxRetries);
  }

  /**
   * If every attempt fails with a retryable error, all `maxRetries + 1` attempts
   * are made, `maxRetries` sleeps are requested, and the last error is returned.
   */
  method ExhaustsRetries<T>(op: nat -> Result<T>, maxRetries: u32)
    returns (r: Result<T>, calls: nat, delays: seq<u64>)
    requires forall j :: 0 <= j <= maxRetries as nat ==> op(j).Err? && IsRetryable(op(j).error)
    ensures calls == maxRetries as nat + 1 && |delays| == maxRetries as nat
    ensures r == op(maxRetries as nat) && r.Err?
  {
    r, calls, delays := RetryLlmOperation(op, maxRetries);
  }

  /** A non-retryable error at attempt `k` ends the loop there and is returned unchanged. */
  method StopsOnTerminalError<T>(op: nat -> Result<T>, maxRetries: u32, k: nat)
    returns (r: Result<T>, calls: nat, delays: seq<u64>)
    requires k <= maxRetries as nat
    requires forall j :: 0 <= j < k ==> op(j).Err? && IsRetryable(op(j).error)
    requires op(k).Err? && !IsRetryable(op(k).error)
    ensures r == op(k) && calls == k + 1 && |delays| == k
  {
    r, calls, delays := RetryLlmOperation(op, maxRetries);
  }

  // ---------------------------------------------------------------------------
  // Mock provider
  // ---------------------------------------------------------------------------

  /** A completion request; the sampling temperature (a float) is not modelled. */
  datatype LLMRequest = LLMRequest(prompt: string, context: map<string, Json>, maxTokens: Option<u32>)

  datatype LLMUsage = LLMUsage(promptTokens: u32, completionTokens: u32, totalTokens: u32)

  datatype LLMResponse = LLMResponse(content: string, usage: LLMUsage, provider: string, model: string)

  /** `s.contains(sub)` on strings. */
  predicate Contains(s: string, sub: string) {
    exists i | 0 <= i <= |s| :: sub <= s[i..]
  }

  /** `context.get("task").and_then(as_str) == Some(task)`. */
  predicate TaskIs(context: map<string, Json>, task: string) {
    "task" in context && AsStr(context["task"]) == Some(task)
  }

  predicate WantsSummary(request: LLMRequest) {
    Contains(request.prompt, "summarize") || TaskIs(request.context, "summarization")
  }

  predicate WantsWorkflow(request: LLMRequest) {
    Contains(request.prompt, "workflow") || TaskIs(request.context, "workflow_planning")
  }

  const SummarizeKey := "summarize"
  const PlanWorkflowKey := "plan_workflow"
  const ReasonKey := "reason"
  const FallbackContent := "Mock response: Task processed."

  /** The canned-response key the mock chooses; summary takes precedence over workflow. */
  function ResponseKey(request: LLMRequest): (key: string)
    ensures key == SummarizeKey || key == PlanWorkflowKey || key == ReasonKey
    ensures key == SummarizeKey <==> WantsSummary(request)
    ensures key == PlanWorkflowKey <==> !WantsSummary(request) && WantsWorkflow(request)
  {
    if WantsSummary(request) then SummarizeKey
    else if WantsWorkflow(request) then PlanWorkflowKey
    else ReasonKey
  }

  const SummaryResponse := "Mock summary: Data analyzed successfully."
  const WorkflowResponse := "[{\"step_id\": \"1\", \"agent_type\": \"mock\", \"action\": \"process\", \"inputs\": [\"data\"], \"outputs\": [\"result\"]}]"
  const ReasonResponse := "Mock reasoning: Task completed with mock logic."

  /** The table `MockLLMProvider::new` starts from. */
  function DefaultResponses(): (m: map<string, string>)
    ensures m.Keys == {SummarizeKey, PlanWorkflowKey, ReasonKey}
  {
    map[SummarizeKey := SummaryResponse, PlanWorkflowKey := WorkflowResponse, ReasonKey := ReasonResponse]
  }

  class MockLLMProvider {
    var responses: map<string, string>

    /** `new`: the three default responses. */
    constructor New()
      ensures responses == DefaultResponses()
    {
      responses := DefaultResponses();
    }

    /** `with_response`: sets one response, leaving the others as they were. */
    method WithResponse(key: string, response: string)
      modifies this
      ensures responses == old(responses)[key := response]
    {
      responses := responses[key := response];
    }

    /**
     * `complete`: always succeeds, with the response stored under the chosen
     * key (or the fallback text), fixed usage counts and the mock's names.
     */
    method Complete(request: LLMRequest) returns (r: Result<LLMResponse>)
      ensures r.Ok?
      ensures ResponseKey(request) in responses ==> r.value.content == responses[ResponseKey(request)]
      ensures ResponseKey(request) !in responses ==> r.value.content == FallbackContent
      ensures r.value.usage == LLMUsage(10, 20, 30)
      ensures r.value.provider == "mock" && r.value.model == "mock-model"
    {
      var key := ResponseKey(request);
      var content := if key in responses then responses[key] else FallbackContent;
      r := Ok(LLMResponse(content, LLMUsage(10, 20, 30), "mock", "mock-model"));
    }
  }

  /** A fresh mock never falls back: every key it can choose has a default response. */
  lemma DefaultsNeverFallBack(request: LLMRequest)
    ensures ResponseKey(request) in DefaultResponses()
    ensures DefaultResponses()[ResponseKey(request)] != FallbackContent
  {
  }

  /**
   * A summarisation request to a fresh mock is answered by the mock provider
   * with its summary text.
   */
  method SummarizeScenario() returns (response: Result<LLMResponse>)
    ensures response.Ok? && response.value.provider == "mock"
    ensures Contains(response.value.content, "Mock summary")
  {
    var provider := new MockLLMProvider.New();
    var context := map["task" := JString("summarization")];
    assert TaskIs(context, "summarization");
    var request := LLMRequest("Please summarize this data", context, Some(100));
    assert ResponseKey(request) == SummarizeKey;
    response := provider.Complete(request);
    assert response.value.content == DefaultResponses()[SummarizeKey];
    assert "Mock summary" <= response.value.content[0..];
  }

  /** A response set with `with_response` replaces the default one for that key. */
  method OverrideScenario(text: string) returns (response: Result<LLMResponse>)
    ensures response.Ok? && response.value.content == text
  {
    var provider := new MockLLMProvider.New();
    provider.WithResponse(ReasonKey, text);
    var request := LLMRequest("hello", map[], None);
    assert !Contains("hello", SummarizeKey) && !Contains("hello", PlanWorkflowKey) by {
      forall i | 0 <= i <= |"hello"| ensures !(SummarizeKey <= "hello"[i..]) && !(PlanWorkflowKey <= "hello"[i..]) {
        assert |"hello"[i..]| < |SummarizeKey|;
      }
    }
    response := provider.Complete(request);
  }
}
