/**
 * The process-level agent (`AgentProcess`) run under a supervisor: a single
 * state map and a 32-bit message counter, updated by one handler per message
 * kind, and the supervisor's start-up selection of the child's configuration.
 * Spawning, mailboxes, linking and restarts are the host runtime's concern and
 * are not modelled; each handler is a method on the process state.
 */
module Supervisor {
  import opened Wrappers
  import opened Text
  import opened Json
  import opened Agent

  datatype MemoryBackendType = InMemory | File(path: string)

  /** What a child agent is spawned with. */
  datatype AgentConfig = AgentConfig(id: AgentId, memoryBackendType: MemoryBackendType, natsEnabled: bool)

  // ---------------------------------------------------------------------------
  // Specification of the handlers
  // ---------------------------------------------------------------------------

  /** `message_count += 1` on a `u32`, wrapping at 2^32 (a release build; a debug build panics there). */
  function WrappingIncrement(c: u32): (r: u32)
    ensures c < 0xFFFF_FFFF ==> r == c + 1
    ensures c == 0xFFFF_FFFF ==> r == 0
  {
    (c + 1) % 0x1_0000_0000
  }

  /** The state map after an agent message: its payload recorded under the sender's key. */
  function RecordMessage(state: map<string, Json>, message: Message): (r: map<string, Json>)
    ensures LastMessageKey(message.from) in r && r[LastMessageKey(message.from)] == message.payload
    ensures r.Keys == state.Keys + {LastMessageKey(message.from)}
    ensures forall k :: k in state && k != LastMessageKey(message.from) ==> r[k] == state[k]
  {
    state[LastMessageKey(message.from) := message.payload]
  }

  /** The key a state action names, if it names one. */
  function ActionKey(action: StateAction): Option<string> {
    match action
    case Store(key, _) => Some(key)
    case Get(key) => Some(key)
    case Delete(key) => Some(key)
    case Clear => None
    case List => None
  }

  /** The state map after a state action. */
  function ApplyAction(state: map<string, Json>, action: StateAction): (r: map<string, Json>)
    ensures action.Store? ==> action.key in r && r[action.key] == action.value
    ensures action.Delete? ==> action.key !in r
    ensures action.Clear? ==> r == map[]
    ensures action.Get? || action.List? ==> r == state
    ensures !action.Clear? ==> forall k :: Some(k) != ActionKey(action) ==>
      (k in r <==> k in state) && (k in r ==> r[k] == state[k])
  {
    match action
    case Store(key, value) => state[key := value]
    case Get(_) => state
    case Delete(key) => state - {key}
    case Clear => map[]
    case List => state
  }

  /** Of two messages from the same sender, the later payload is the one kept. */
  lemma LaterMessageWins(state: map<string, Json>, first: Message, second: Message)
    requires first.from == second.from
    ensures RecordMessage(RecordMessage(state, first), second) == RecordMessage(state, second)
  {
  }

  /** Storing and then deleting a key leaves the state as if the key had only been deleted. */
  lemma StoreThenDelete(state: map<string, Json>, key: string, value: Json)
    ensures ApplyAction(ApplyAction(state, Store(key, value)), Delete(key)) == ApplyAction(state, Delete(key))
  {
    assert state[key := value] - {key} == state - {key};
  }

  /** Repeating a delete or a clear changes nothing more. */
  lemma DeleteAndClearIdempotent(state: map<string, Json>, action: StateAction)
    requires action.Delete? || action.Clear?
    ensures ApplyAction(ApplyAction(state, action), action) == ApplyAction(state, action)
  {
    if action.Delete? {
      assert state - {action.key} - {action.key} == state - {action.key};
    }
  }

  // ---------------------------------------------------------------------------
  // The process
  // ---------------------------------------------------------------------------

  class AgentProcess {
    const id: AgentId
    var state: map<string, Json>
    var messageCount: u32

    /** `init`: the configured id, an empty map and a zero counter. */
    constructor Init(config: AgentConfig)
      ensures id == config.id && state == map[] && messageCount == 0
    {
      id := config.id;
      state := map[];
      messageCount := 0;
    }

    /** An agent message: count it and record its payload under the sender's key. */
    method HandleAgentMessage(message: Message)
      modifies this
      ensures messageCount == WrappingIncrement(old(messageCount))
      ensures state == RecordMessage(old(state), message)
    {
      messageCount := WrappingIncrement(messageCount);
      state := state[LastMessageKey(message.from) := message.payload];
    }

    /** A state action: applied to the map; the counter is untouched. */
    method HandleStateAction(action: StateAction)
      modifies this
      ensures state == ApplyAction(old(state), action)
      ensures messageCount == old(messageCount)
    {
      match action {
        case Store(key, value) =>
          state := state[key := value];
        case Get(key) =>
        case Delete(key) =>
          state := state - {key};
        case Clear =>
          state := map[];
        case List =>
      }
    }

    /** `GetAgentState`: a copy of the current map. */
    method GetAgentState() returns (snapshot: map<string, Json>)
      ensures snapshot == state
    {
      snapshot := state;
    }

    /** `Shutdown`: only logged; the process ends after the handler returns. */
    method HandleShutdown()
      ensures unchanged(this)
    {
    }
  }

  // ---------------------------------------------------------------------------
  // The supervisor
  // ---------------------------------------------------------------------------

  datatype Strategy = OneForOne | OneForAll | RestForOne

  /** What the supervisor's `init` configures: a strategy and the child's arguments, if any. */
  datatype SupervisorSetup = SupervisorSetup(strategy: Strategy, args: Option<AgentConfig>)

  /** `init`: one-for-one restarts, and the first configuration as the only child's arguments. */
  function SupervisorInit(configs: seq<AgentConfig>): (r: SupervisorSetup)
    ensures r.strategy == OneForOne
    ensures r.args.None? <==> configs == []
    ensures r.args.Some? ==> r.args.value == configs[0]
  {
    SupervisorSetup(OneForOne, if configs == [] then None else Some(configs[0]))
  }

  /** Configurations after the first are ignored. */
  lemma OnlyFirstConfigUsed(first: AgentConfig, more: seq<AgentConfig>)
    ensures SupervisorInit([first] + more) == SupervisorInit([first])
  {
  }

  // ---------------------------------------------------------------------------
  // Scenarios on a fresh process
  // ---------------------------------------------------------------------------

  /**
   * Two messages from the same sender: both are counted and the snapshot holds
   * only the later payload, under `last_message_from_{sender}`.
   */
  method RepeatedSenderScenario(config: AgentConfig, first: Message, second: Message)
    returns (snapshot: map<string, Json>, count: u32)
    requires first.from == second.from
    ensures snapshot == map[LastMessageKey(second.from) := second.payload]
    ensures count == 2
  {
    var process := new AgentProcess.Init(config);
    process.HandleAgentMessage(first);
    process.HandleAgentMessage(second);
    LaterMessageWins(map[], first, second);
    snapshot := process.GetAgentState();
    count := process.messageCount;
  }

  /**
   * Store two keys, delete one, then shut down: the snapshot holds exactly the
   * other key, and no state action counted as a message.
   */
  method StoreDeleteSnapshotScenario(config: AgentConfig, k1: string, k2: string, v1: Json, v2: Json)
    returns (snapshot: map<string, Json>, count: u32)
    requires k1 != k2
    ensures snapshot == map[k2 := v2]
    ensures count == 0
  {
    var process := new AgentProcess.Init(config);
    process.HandleStateAction(Store(k1, v1));
    process.HandleStateAction(Store(k2, v2));
    process.HandleStateAction(Get(k1));
    process.HandleStateAction(Delete(k1));
    process.HandleStateAction(List);
    process.HandleShutdown();
    snapshot := process.GetAgentState();
    count := process.messageCount;
    assert map[k1 := v1][k2 := v2] - {k1} == map[k2 := v2];
  }
}
