# Agent runtime core, modelled in Dafny

This project models the sequential core of a distributed agent runtime that is written in Rust. The runtime runs on Lunatic processes and talks over NATS. The model covers six parts:

- **Errors** (`errors.dfy`): the library error type and its retry policy, meaning which errors are retryable and how long to back off. It also covers the display text of a timeout.
- **Memory** (`memory.dfy`): the in-memory key/value backend, a class whose map is updated in place.
- **Agent** (`agent.dfy`): the agent's two-tier state.
  - The ephemeral map answers reads. Every mutation is written through to the backend under `"{id}:{key}"`. As in the code, the namespaces of agents whose ids nest (`a` and `a:b`) overlap.
  - A load/save pair moves a whole namespace between the two tiers, and the message router decides whether a message is a state action, is forwarded over NATS, or is an application message.
  - A state action arrives as the externally tagged JSON that serde writes, and is read back by the same rules.
- **Supervisor** (`supervisor.dfy`): the process-level agent. It has one map and a 32-bit message counter, with one handler per message kind. Also the supervisor's choice of its child's configuration.
- **LlmClient** (`llm_client.dfy`): the bounded retry loop around an LLM operation and the fixed retry count of the safe wrapper. Also the mock provider, which answers from a table of canned responses.
- **WasmNats** (`wasm_nats.dfy`): the browser NATS client.
  - It parses an incoming `MSG` frame and builds the `PUB` and `SUB` frames.
  - Its connection class holds the connected flag, the subscription table and the frames handed to the socket.
  - It works on bytes, and `usize` is 32 bits wide, as on the WebAssembly target.

`wrappers.dfy` (Option), `text.dfy` (decimal digits, UTF-8 and Latin-1 bytes) and `json.dfy` (a JSON value) are shared helpers.

Outside effects become explicit data:

- The outcome of a backend call or a NATS publish is an input parameter, `fault: Option<Error>`; `None` means the call succeeds.
- A publication is appended to a log.
- The retry loop's operation is a function from the attempt index to that attempt's result. Its sleeps are returned as the list of requested delays.
- A socket send failure is an input, `sendError`.

Where the system's design description and the code differ, the model follows the code:

- The third retryable error is `Nats`, not a generic transport error.
- The code has no LLM task dispatch, fallback synthesis or operation records. A local message is routed only on its `type` field.
- The process-level agent's message counter is a `u32`.

## Model

| member | source | states |
|---|---|---|
| Errors.RetryDelayMs | src/lib.rs:68-75 | the back-off never exceeds 5000 ms |
| Errors.IsRetryable | src/lib.rs:60-66 | an error is retryable exactly when its retry delay is positive |
| Errors.RetryPolicyTable | src/lib.rs:60-75 | retryable exactly for LLMTimeout, LLMRateLimit and Nats; delays are 1000, 5000 and 500 ms for these, and 0 for every other error |
| Errors.Display | src/lib.rs:28-56 | the display text of a wrapped-message error ends with that message verbatim; a timeout reads "LLM API timeout after ", the decimal seconds, then "s" |
| Errors.DisplayStartsWithTag | src/lib.rs:28-56 | every display text starts with the first five characters of its variant's fixed text |
| Errors.DisplayInjective | src/lib.rs:28-56 | two errors with the same display text are the same error |
| Errors.TimeoutDisplayRoundTrip | src/lib.rs:45-46 | the timeout message is the fixed prefix, the decimal seconds, then "s"; the digits read back as the timeout |
| Json.GetField | src/agent.rs:195-202 | `get` on a value yields a member exactly when the value is an object holding that key, and then that member |
| Json.AsStr | src/llm_client.rs:285-287 | `as_str` yields text exactly for a string value, and then its text |
| Memory.InMemoryBackend.constructor | src/memory.rs:22-26 | a new backend is empty |
| Memory.InMemoryBackend.Store | src/memory.rs:37-41 | the key maps to the new value (last writer wins) and every other key keeps its value |
| Memory.InMemoryBackend.Retrieve | src/memory.rs:43-46 | returns Some exactly when the key is stored, with its value; the storage is not modified |
| Memory.InMemoryBackend.Delete | src/memory.rs:48-51 | reports true exactly when the key was present; the storage afterwards is the old storage without that key, so it is unchanged when the key was absent |
| Memory.InMemoryBackend.ListKeys | src/memory.rs:53-63 | lists exactly the stored keys that start with the prefix (all keys for None), each once, and modifies nothing |
| Memory.InMemoryBackend.Clear | src/memory.rs:65-69 | the storage becomes empty |
| Memory.ListedExactly | src/memory.rs:53-63 | a repetition-free listing of exactly a given key set is as long as that set |
| Memory.StoreRetrieveDeleteScenario | src/memory.rs:198-217 | on a fresh backend: store then retrieve gives the value back, the key is listed, delete reports true, and a later retrieve gives None |
| Memory.OverwriteAndDoubleDeleteScenario | src/memory.rs:37-51 | the second store wins; the first delete reports true, the second false; nothing is listed after that |
| Memory.PrefixFilteringScenario | src/memory.rs:221-237 | prefix "agent" lists exactly the two agent keys, prefix "system" lists only the system key, and nothing is listed after clear |
| Agent.EncodeStateAction | src/agent.rs:19-26 | a unit variant is written as its name; a struct variant as an object whose only key is its name |
| Agent.DecodeStateAction | src/agent.rs:163 | a payload is read as an action only if it is the name of a unit variant, or an object whose only key is the variant's name; the key (and a Store's value) come from that entry's fields |
| Agent.DecodeEncodeStateAction | src/agent.rs:20-26 | decoding the JSON that serde writes for a state action gives that action back |
| Agent.TypedPayloadIsNotStateAction | src/agent.rs:163-165 | an object payload with a "type" field never decodes as a state action |
| Agent.StripPersistentKey | src/agent.rs:72-76 | stripping the agent's `"{id}:"` prefix from a persistent key gives the local key back |
| Agent.PersistentKeyOfStripped | src/agent.rs:72-76 | a backend key in the agent's namespace is the persistent key of its stripped form |
| Agent.PersistentKeyInjective | src/agent.rs:91 | two local keys of one agent never share a backend key |
| Agent.NestedIdsShareBackendKeys | src/agent.rs:72-91 | the namespaces of two agents can overlap: key `k` of agent `"{id}:{sub}"` is the same backend key as key `"{sub}:k"` of agent `id`, and `id`'s load strips it to that key |
| Agent.PersistedAt | src/agent.rs:89-98 | the saved entries are exactly the agent's namespace over the ephemeral keys, each with its ephemeral value |
| Agent.LoadedAt | src/agent.rs:71-86 | a key is loaded exactly when its persistent key is stored, and it gets the stored value |
| Agent.SaveThenLoadRestores | src/agent.rs:71-98 | after a save, a load restores every ephemeral entry; if the backend held nothing else in the namespace, the loaded map is exactly the saved one |
| Agent.SaveIntoEmptyThenLoad | src/agent.rs:71-98 | saving into an empty backend and loading gives back exactly the saved map |
| Agent.PersistedExtend | src/agent.rs:90-93 | writing one more key extends the saved entries by exactly that key's persistent entry |
| Agent.AgentState.constructor | src/agent.rs:56-63 | a new agent has an empty ephemeral map, no NATS connection and nothing published |
| Agent.AgentState.WithNats | src/agent.rs:65-68 | attaches NATS and changes nothing else |
| Agent.AgentState.LoadPersistentState | src/agent.rs:71-86 | the ephemeral map becomes the old map overwritten by every backend entry whose key starts with `"{id}:"`, with that prefix stripped; backend keys outside the prefix are ignored |
| Agent.AgentState.SavePersistentState | src/agent.rs:89-98 | the backend becomes the old backend overwritten by every ephemeral entry under `"{id}:{key}"` |
| Agent.AgentState.HandleStateAction | src/agent.rs:101-156 | Store sets the ephemeral value before the write-through, and a failed write still leaves it set; Get changes nothing on a cached key, otherwise caches the backend value if there is one; Delete removes the key and Clear empties the ephemeral map before the backend call (Clear empties the whole backend); List changes nothing; a backend failure is returned |
| Agent.AgentState.ProcessApplicationMessage | src/agent.rs:189-219 | records the payload under `last_message_from_{from}`; a data_update with data also sets received_data; a shutdown saves the state and returns the "Shutdown requested" error; any other type only records |
| Agent.AgentState.HandleMessage | src/agent.rs:159-186 | a payload that decodes as a state action is applied, whoever it is addressed to; otherwise, with NATS attached and another addressee, one publication goes to `agent.{to}` and both tiers are unchanged (a failed publish gives "NATS publish failed: …"); otherwise the message is processed locally |
| Agent.SaveClearLoadScenario | src/agent.rs:298-326 | save, clear the ephemeral map, load: the restored map equals the saved entries |
| Agent.StateActionMessageScenario | src/agent.rs:330-354 | a serialised Store addressed to another agent with NATS attached is applied locally and persisted, and nothing is forwarded |
| Agent.ForwardScenario | src/agent.rs:167-179 | an application message for another agent is published once on `agent.{to}` and the ephemeral map stays empty |
| Supervisor.WrappingIncrement | src/supervisor.rs:61 | the counter goes up by one below 2^32-1 and wraps to 0 at it |
| Supervisor.RecordMessage | src/supervisor.rs:66-67 | the sender's key holds the payload; it is the only key added and every other key keeps its value |
| Supervisor.ApplyAction | src/supervisor.rs:72-98 | Store inserts or overwrites, Delete removes, Clear empties, Get and List leave the map alone; no key other than the named one changes |
| Supervisor.LaterMessageWins | src/supervisor.rs:66-67 | of two messages from one sender, the later payload is the one kept |
| Supervisor.StoreThenDelete | src/supervisor.rs:74-87 | storing then deleting a key is the same as only deleting it |
| Supervisor.DeleteAndClearIdempotent | src/supervisor.rs:85-92 | a second Delete or Clear changes nothing more |
| Supervisor.AgentProcess.Init | src/supervisor.rs:43-51 | the id comes from the configuration, the state is empty and the counter is 0 |
| Supervisor.AgentProcess.HandleAgentMessage | src/supervisor.rs:60-68 | the counter is incremented once and only the sender's key is set |
| Supervisor.AgentProcess.HandleStateAction | src/supervisor.rs:72-98 | the map becomes ApplyAction of the old map and the counter is untouched |
| Supervisor.AgentProcess.GetAgentState | src/supervisor.rs:108-110 | the snapshot equals the current map and nothing changes |
| Supervisor.AgentProcess.HandleShutdown | src/supervisor.rs:118-121 | nothing changes |
| Supervisor.SupervisorInit | src/supervisor.rs:139-149 | strategy one-for-one; no child arguments exactly when the list is empty, otherwise the first configuration |
| Supervisor.OnlyFirstConfigUsed | src/supervisor.rs:144-148 | configurations after the first do not affect the setup |
| Supervisor.RepeatedSenderScenario | tests/integration_tests.rs:99-102 | after two messages from one sender, the snapshot holds exactly the later payload under `last_message_from_{sender}` and the counter is 2 |
| Supervisor.StoreDeleteSnapshotScenario | src/supervisor.rs:72-110 | two stores, a get, a delete, a list and a shutdown leave exactly the surviving key, with a counter of 0 |
| LlmClient.RetryLlmOperation | src/llm_client.rs:364-398 | between 1 and max_retries+1 calls; the result is the last call's; every earlier call failed retryably; a failure before the last allowed attempt is not retryable; one delay per retry, equal to that error's retry delay; the final `Err(last_error)` is unreachable |
| LlmClient.SafeLlmOperation | src/llm_client.rs:401-424 | the retry loop with 3 retries: between 1 and 4 calls, the last call's result returned unchanged, every earlier call a retryable failure followed by its back-off, and a failure before the fourth call not retryable |
| LlmClient.SucceedsAfterRetries | src/llm_client.rs:374-376 | k retryable failures followed by a success (k ≤ max_retries) return that success after exactly k+1 calls and k delays |
| LlmClient.ExhaustsRetries | src/llm_client.rs:374-395 | when every call fails retryably, exactly max_retries+1 calls are made and the last error is returned |
| LlmClient.StopsOnTerminalError | src/llm_client.rs:377-393 | a non-retryable error ends the loop at that call and is returned unchanged |
| LlmClient.ResponseKey | src/llm_client.rs:285-291 | "summarize" exactly when the prompt or task asks for a summary; "plan_workflow" exactly when it asks for a workflow and not a summary; otherwise "reason" |
| LlmClient.DefaultResponses | src/llm_client.rs:264-272 | the default table has exactly the keys summarize, plan_workflow and reason |
| LlmClient.MockLLMProvider.New | src/llm_client.rs:264-272 | a new mock holds the default table |
| LlmClient.MockLLMProvider.WithResponse | src/llm_client.rs:274-277 | sets one response and leaves the others as they were |
| LlmClient.MockLLMProvider.Complete | src/llm_client.rs:283-307 | always succeeds with the response stored under the chosen key, or the fallback text if there is none, and fixed usage 10/20/30 from the "mock" provider's "mock-model" |
| LlmClient.DefaultsNeverFallBack | src/llm_client.rs:264-295 | a fresh mock has a response for every key it can choose, so it never falls back |
| LlmClient.SummarizeScenario | src/llm_client.rs:431-444 | a summarisation request to a fresh mock gets a "mock" response containing "Mock summary" |
| LlmClient.OverrideScenario | src/llm_client.rs:274-295 | a response set with with_response replaces the default for its key |
| WasmNats.Tokens | src/wasm_nats.rs:174 | whitespace splitting yields only non-empty, whitespace-free tokens |
| WasmNats.TokensJoin | src/wasm_nats.rs:174 | splitting space-joined words (followed by whitespace) gives the words back |
| WasmNats.FindNewline | src/wasm_nats.rs:185 | finds the first line feed, if there is one |
| WasmNats.ParseUsize | src/wasm_nats.rs:180-181 | a size is accepted only when it fits in a 32-bit usize |
| WasmNats.ParseHeader | src/wasm_nats.rs:165-182 | empty data gives "Empty NATS message"; otherwise fewer than four tokens or a first token other than MSG gives "Invalid NATS message format"; otherwise a last token that is not a usize gives "Invalid payload size"; otherwise it succeeds, with the second token as subject and the last as size |
| WasmNats.HeaderFromTokens | src/wasm_nats.rs:174-182 | a non-empty frame whose first line has at least four tokens, MSG first and a usize last, passes the header checks with the second token as subject |
| WasmNats.ParseNatsMessage | src/wasm_nats.rs:165-190 | succeeds exactly when the header checks pass, and otherwise returns their error |
| WasmNats.ParsedPayload | src/wasm_nats.rs:184-189 | the message has the header's subject; its payload is the data right after the first line feed, as long as the smaller of the declared size and what remains of the buffer |
| WasmNats.ParseNatsMessageAsWritten | src/wasm_nats.rs:185-187 | the code as written panics exactly when the header passes and the payload start plus the size exceeds usize::MAX |
| WasmNats.AsWrittenAgreesWhenNoOverflow | src/wasm_nats.rs:165-190 | where the code as written does not panic, it returns the same result as the corrected parser |
| WasmNats.HeaderOfMsgLine | src/wasm_nats.rs:165-185 | a frame that starts with a well-formed MSG line passes the header checks with its subject and size, and its payload starts after that line |
| WasmNats.ParseOfMsgLine | src/wasm_nats.rs:165-190 | such a frame parses to its subject and what follows the line, cut at the size |
| WasmNats.MsgFrameRoundTrip | src/wasm_nats.rs:165-190 | a MSG frame with a whitespace-free subject, an sid, an optional reply-to and its payload's length parses back to that subject and payload |
| WasmNats.ParsesHelloFrame | src/wasm_nats.rs:362-367 | `MSG test.subject 1 5\r\nhello\r\n` parses to subject test.subject and payload hello |
| WasmNats.HeaderOnlyFrame | src/wasm_nats.rs:184-187 | a frame that is only a MSG line gives an empty payload, and the code as written panics on it exactly when the frame length plus the size exceeds usize::MAX |
| WasmNats.OversizedSizePanicsAsWritten | src/wasm_nats.rs:186 | on `MSG a 1 4294967295\r\n` the code as written panics, while the corrected parser returns subject a with an empty payload |
| WasmNats.PubFrameLayout | src/wasm_nats.rs:198-202 | the PUB frame's first line tokenises to PUB, the subject and the data length (which reads back); the data follows that line and is followed by CRLF |
| WasmNats.PubFrame | src/wasm_nats.rs:198-202 | the PUB frame is the words PUB, the subject and the data length joined by single spaces, CRLF, the data, then CRLF |
| WasmNats.SubFrame | src/wasm_nats.rs:226-228 | the SUB frame is the words SUB, the subject and the subject again (as sid) joined by single spaces, then CRLF |
| WasmNats.SubFrameLayout | src/wasm_nats.rs:226-228 | the SUB frame is a single line whose tokens are SUB and the subject twice |
| WasmNats.CommandLineBytes | src/wasm_nats.rs:199 | the UTF-8 bytes of a formatted `{verb} {a} {b}\r\n` line are its three words joined by single spaces, then CRLF |
| WasmNats.WasmNatsConnection.constructor | src/wasm_nats.rs:77-87 | a new connection is disconnected, with no subscriptions and nothing sent |
| WasmNats.WasmNatsConnection.OnOpen | src/wasm_nats.rs:101-106 | the open event sets connected and changes nothing else |
| WasmNats.WasmNatsConnection.OnClose | src/wasm_nats.rs:144-150 | the close event clears connected and changes nothing else |
| WasmNats.WasmNatsConnection.Publish | src/wasm_nats.rs:193-210 | when not connected it fails and sends nothing; otherwise it sends exactly the PUB frame, or reports the socket's failure and sends nothing |
| WasmNats.WasmNatsConnection.Subscribe | src/wasm_nats.rs:213-235 | when not connected it fails and changes nothing; otherwise it maps the subject to a fresh channel, replacing any earlier one and distinct from every other subscription, before sending; then it sends the SUB frame or reports the socket's failure, and the subscription stays either way |
| WasmNats.PublishScenario | src/wasm_nats.rs:193-210 | a publish before the socket opens fails; after it opens, one publish sends exactly one PUB frame |
| WasmNats.ResubscribeScenario | src/wasm_nats.rs:213-235 | subscribing twice keeps one entry, on the newer channel; a failed send still leaves it installed, and only the first SUB frame was sent |

## Left out

- `FileBackend` and the `MemoryBackend` trait's other implementations: filesystem I/O. The `Arc<Mutex<..>>` around the in-memory map is absent. Clones of a backend share one map; that sharing is a concurrency concern and is not modelled.
- Memory.InMemoryBackend.ListKeys: the order of the listed keys (hash-map iteration order) is not modelled, only their set and the absence of repetitions.
- Agent.AgentState.LoadPersistentState and Agent.AgentState.SavePersistentState: the backend is the in-memory one, which never fails. A failure part-way through the loop, which the trait allows, is not modelled.
- Agent.AgentState.HandleMessage: the serialisation of a forwarded message (`serde_json::to_vec`) is taken to succeed. The message itself stands for its bytes in the publication log. The NATS client itself (src/nats_comm.rs) is not part of this model.
- Agent.DecodeStateAction: serde's array form of struct variants is not decoded. JSON numbers are integers only; floats are not modelled.
- Logging and the `Agent` handle type in src/agent.rs are left out.
- Supervisor.WrappingIncrement: models a release build, where `message_count += 1` wraps at 2^32. A debug build panics there instead.
- The Lunatic machinery in src/supervisor.rs is left out: spawning, linking, mailboxes, restarts, `terminate`, and the `spawn_*`, `send_*`, `get_agent_state` and `shutdown_agent` helpers.
- LlmClient.RetryLlmOperation: sleeps are recorded as requested delays and not performed. Without the `nats` feature the source does not sleep at all; the delay list is the same either way.
- The OpenAI provider, `plan_workflow` JSON parsing, `summarize_data`, the temperature (a float), timing and logging are left out of src/llm_client.rs. So is the WebAssembly build of the mock, whose `complete` reports zero usage.
- LlmClient.MockLLMProvider.WithResponse: the by-value builder is modelled as an in-place update of the provider's table.
- The duplicate error methods in src/main.rs and the demo programs are not part of this model.
- WebSocket plumbing in src/wasm_nats.rs is left out: `new`, the event-handler closures, the `onmessage` dispatch to subscribers, `close`, `ready_state`, statistics, base64, and the stub connection of builds without the feature. A socket send failure is an input.
- WasmNats.ParseNatsMessage: the header is read byte by byte, as ASCII. The index mismatch that lossy UTF-8 decoding causes for non-ASCII bytes before the first line feed is not modelled. Whitespace is ASCII whitespace only.
- WasmNats.FirstLine keeps a carriage return before the line feed. It is whitespace, so the tokens are those of the first of `lines()`.

## Findings

| source | as written | input that shows it | evidently intended | confidence | as-written member | corrected member |
|---|---|---|---|---|---|---|
| src/wasm_nats.rs:186 | `payload_start + payload_size` is a `usize` addition. Any size up to `usize::MAX` is accepted, so the sum overflows. A debug build panics on the addition. A release build wraps to a value below `payload_start`, and the slice on line 187 then panics. | `MSG a 1 4294967295\r\n` (32-bit usize) | the payload is cut at the end of the buffer, as line 186's `min` intends, without panicking | not executed; high | WasmNats.ParseNatsMessageAsWritten, WasmNats.OversizedSizePanicsAsWritten | WasmNats.ParseNatsMessage, WasmNats.ParsedPayload |
