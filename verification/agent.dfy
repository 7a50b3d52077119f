/**
 * The per-agent state store and message handling (`AgentState`): an
 * ephemeral map that answers reads, written through to a persistent backend
 * under `"{id}:{key}"`, a load/save pair that moves whole namespaces between
 * the two tiers, and a message router that applies state actions, forwards
 * messages for other agents over NATS, or records application messages.
 */
module Agent {
  import opened Wrappers
  import opened Text
  import opened Json
  import opened Errors
  import opened Memory

  datatype AgentId = AgentId(name: string)

  datatype Message = Message(id: string, from: AgentId, to: AgentId, payload: Json, timestamp: u64)

  datatype StateAction =
    | Store(key: string, value: Json)
    | Get(key: string)
    | Delete(key: string)
    | Clear
    | List

  // ---------------------------------------------------------------------------
  // StateAction as JSON, in serde's externally tagged representation
  // ---------------------------------------------------------------------------

  /** The name serde tags a variant with. */
  function VariantName(a: StateAction): string {
    match a
    case Store(_, _) => "Store"
    case Get(_) => "Get"
    case Delete(_) => "Delete"
    case Clear => "Clear"
    case List => "List"
  }

  /**
   * How `serde_json::to_value` writes a `StateAction`: a unit variant as its
   * name, a struct variant as a one-key object, the name mapped to the fields.
   */
  function EncodeStateAction(a: StateAction): (r: Json)
    ensures r.JString? <==> a.Clear? || a.List?
    ensures r.JString? ==> r.s == VariantName(a)
    ensures r.JObject? ==> |r.fields| == 1 && VariantName(a) in r.fields
    ensures r.JString? || r.JObject?
  {
    match a
    case Store(k, v) => JObject(map["Store" := JObject(map["key" := JString(k), "value" := v])])
    case Get(k) => JObject(map["Get" := JObject(map["key" := JString(k)])])
    case Delete(k) => JObject(map["Delete" := JObject(map["key" := JString(k)])])
    case Clear => JString("Clear")
    case List => JString("List")
  }

  /** The `key` field of a `{ key: String }` struct variant; other fields are ignored. */
  function DecodeKeyField(content: Json): Option<string> {
    match content
    case JObject(f) => if "key" in f && f["key"].JString? then Some(f["key"].s) else None
    case _ => None
  }

  function DecodeStore(content: Json): Option<StateAction> {
    match content
    case JObject(f) =>
      if "key" in f && f["key"].JString? && "value" in f then Some(Store(f["key"].s, f["value"])) else None
    case _ => None
  }

  /**
   * `serde_json::from_value::<StateAction>`: a unit variant is its name as a
   * string (or a one-key object holding null); a struct variant is a one-key
   * object whose value is an object with the variant's fields.
   */
  function DecodeStateAction(v: Json): (r: Option<StateAction>)
    ensures r.Some? && v.JString? ==> (r.value.Clear? || r.value.List?) && v.s == VariantName(r.value)
    ensures r.Some? ==> v.JString? || (v.JObject? && |v.fields| == 1 && VariantName(r.value) in v.fields)
    ensures r.Some? && (r.value.Store? || r.value.Get? || r.value.Delete?) ==>
      v.JObject? && GetField(v.fields[VariantName(r.value)], "key") == Some(JString(r.value.key))
    ensures r.Some? && r.value.Store? ==> v.JObject? && GetField(v.fields["Store"], "value") == Some(r.value.value)
  {
    match v
    case JString(tag) =>
      if tag == "Clear" then Some(Clear) else if tag == "List" then Some(List) else None
    case JObject(fields) =>
      if |fields| != 1 then None
      else if "Store" in fields then DecodeStore(fields["Store"])
      else if "Get" in fields then
        (match DecodeKeyField(fields["Get"]) case Some(k) => Some(Get(k)) case None => None)
      else if "Delete" in fields then
        (match DecodeKeyField(fields["Delete"]) case Some(k) => Some(Delete(k)) case None => None)
      else if "Clear" in fields then (if fields["Clear"] == JNull then Some(Clear) else None)
      else if "List" in fields then (if fields["List"] == JNull then Some(List) else None)
      else None
    case _ => None
  }

  /** Serialising a state action and reading it back gives the same action. */
  lemma DecodeEncodeStateAction(a: StateAction)
    ensures DecodeStateAction(EncodeStateAction(a)) == Some(a)
  {
  }

  /**
   * An object payload with a `type` field (an application message) is never
   * taken for a state action, so it reaches the forwarding and application paths.
   */
  lemma TypedPayloadIsNotStateAction(fields: map<string, Json>)
    requires "type" in fields
    ensures DecodeStateAction(JObject(fields)) == None
  {
    if |fields| == 1 {
      assert |fields.Keys - {"type"}| == 0;
      assert fields.Keys == {"type"};
    }
  }

  // ---------------------------------------------------------------------------
  // The persistent namespace of an agent
  // ---------------------------------------------------------------------------

  /** The prefix of every backend key that belongs to agent `id`: `"{id}:"`. */
  function Namespace(id: AgentId): string {
    id.name + ":"
  }

  /** `format!("{}:{}", id, key)`. */
  function PersistentKey(id: AgentId, key: string): string {
    Namespace(id) + key
  }

  /** `strip_prefix("{id}:")`: the local key of a backend key in this agent's namespace. */
  function StripNamespace(id: AgentId, pk: string): Option<string> {
    if Namespace(id) <= pk then Some(pk[|Namespace(id)|..]) else None
  }

  lemma StripPersistentKey(id: AgentId, key: string)
    ensures StripNamespace(id, PersistentKey(id, key)) == Some(key)
  {
    assert PersistentKey(id, key)[|Namespace(id)|..] == key;
  }

  lemma PersistentKeyOfStripped(id: AgentId, pk: string)
    requires StripNamespace(id, pk).Some?
    ensures PersistentKey(id, StripNamespace(id, pk).value) == pk
  {
    assert pk == pk[..|Namespace(id)|] + pk[|Namespace(id)|..];
  }

  /** Two local keys of one agent never share a backend key. */
  lemma PersistentKeyInjective(id: AgentId, k1: string, k2: string)
    requires PersistentKey(id, k1) == PersistentKey(id, k2)
    ensures k1 == k2
  {
    StripPersistentKey(id, k1);
    StripPersistentKey(id, k2);
  }

  /**
   * Namespaces of different agents are not disjoint: the key `k` of agent
   * `"{id}:{sub}"` is the same backend key as the key `"{sub}:k"` of agent
   * `id`, and `id`'s load strips it to that key.
   */
  lemma NestedIdsShareBackendKeys(id: AgentId, sub: string, key: string)
    ensures PersistentKey(AgentId(id.name + ":" + sub), key) == PersistentKey(id, sub + ":" + key)
    ensures StripNamespace(id, PersistentKey(AgentId(id.name + ":" + sub), key)) == Some(sub + ":" + key)
  {
    assert PersistentKey(AgentId(id.name + ":" + sub), key) == PersistentKey(id, sub + ":" + key);
    StripPersistentKey(id, sub + ":" + key);
  }

  /** The backend entries `save_persistent_state` writes for the ephemeral map `eph`. */
  function Persisted(id: AgentId, eph: map<string, Json>): map<string, Json>
  {
    assert forall k1, k2 | k1 in eph && k2 in eph && PersistentKey(id, k1) == PersistentKey(id, k2) :: k1 == k2 by {
      forall k1, k2 | k1 in eph && k2 in eph && PersistentKey(id, k1) == PersistentKey(id, k2) ensures k1 == k2 {
        PersistentKeyInjective(id, k1, k2);
      }
    }
    map k | k in eph :: PersistentKey(id, k) := eph[k]
  }

  /** The saved entries are exactly this agent's namespace over the ephemeral keys. */
  lemma PersistedAt(id: AgentId, eph: map<string, Json>, pk: string)
    ensures pk in Persisted(id, eph) <==> StripNamespace(id, pk).Some? && StripNamespace(id, pk).value in eph
    ensures pk in Persisted(id, eph) ==> Persisted(id, eph)[pk] == eph[StripNamespace(id, pk).value]
  {
    if pk in Persisted(id, eph) {
      var k :| k in eph && PersistentKey(id, k) == pk;
      StripPersistentKey(id, k);
    }
    if StripNamespace(id, pk).Some? {
      PersistentKeyOfStripped(id, pk);
    }
  }

  /** The local keys of the backend entries in this agent's namespace. */
  function LocalKeys(id: AgentId, storage: map<string, Json>): set<string> {
    set pk | pk in storage && StripNamespace(id, pk).Some? :: StripNamespace(id, pk).value
  }

  /** The ephemeral entries `load_persistent_state` reads from `storage`: its namespace, prefix stripped. */
  function Loaded(id: AgentId, storage: map<string, Json>): map<string, Json>
  {
    assert forall key | key in LocalKeys(id, storage) :: PersistentKey(id, key) in storage by {
      forall key | key in LocalKeys(id, storage) ensures PersistentKey(id, key) in storage {
        var pk :| pk in storage && StripNamespace(id, pk).Some? && StripNamespace(id, pk).value == key;
        PersistentKeyOfStripped(id, pk);
      }
    }
    map key | key in LocalKeys(id, storage) :: storage[PersistentKey(id, key)]
  }

  lemma LoadedAt(id: AgentId, storage: map<string, Json>, key: string)
    ensures key in Loaded(id, storage) <==> PersistentKey(id, key) in storage
    ensures key in Loaded(id, storage) ==> Loaded(id, storage)[key] == storage[PersistentKey(id, key)]
  {
    StripPersistentKey(id, key);
    if PersistentKey(id, key) in storage {
      assert key in LocalKeys(id, storage);
    }
    if key in LocalKeys(id, storage) {
      var pk :| pk in storage && StripNamespace(id, pk).Some? && StripNamespace(id, pk).value == key;
      PersistentKeyOfStripped(id, pk);
    }
  }

  /**
   * Saving and then loading restores every saved entry; when the backend held
   * nothing else in this agent's namespace, loading gives exactly the saved map.
   */
  lemma SaveThenLoadRestores(id: AgentId, eph: map<string, Json>, storage: map<string, Json>)
    ensures forall k :: k in eph ==>
      k in Loaded(id, storage + Persisted(id, eph)) && Loaded(id, storage + Persisted(id, eph))[k] == eph[k]
    ensures Loaded(id, storage) == map[] ==> Loaded(id, storage + Persisted(id, eph)) == eph
  {
    var saved := storage + Persisted(id, eph);
    var after := Loaded(id, saved);
    forall k | k in eph ensures k in after && after[k] == eph[k] {
      LoadedAt(id, saved, k);
      PersistedAt(id, eph, PersistentKey(id, k));
      StripPersistentKey(id, k);
    }
    if Loaded(id, storage) == map[] {
      forall k | k in after ensures k in eph {
        LoadedAt(id, saved, k);
        LoadedAt(id, storage, k);
        PersistedAt(id, eph, PersistentKey(id, k));
        StripPersistentKey(id, k);
      }
    }
  }

  // ---------------------------------------------------------------------------
  // Message routing
  // ---------------------------------------------------------------------------

  /** A message handed to the NATS connection, on a subject. */
  datatype Publication = Publication(subject: string, message: Message)

  /** `format!("agent.{}", to)`. */
  function ForwardSubject(to: AgentId): string {
    "agent." + to.name
  }

  /** `format!("last_message_from_{}", from)`. */
  function LastMessageKey(from: AgentId): string {
    "last_message_from_" + from.name
  }

  const ReceivedDataKey := "received_data"

  /** `payload.get("type")` read as a string. */
  function MessageType(payload: Json): Option<string> {
    match GetField(payload, "type")
    case Some(t) => AsStr(t)
    case None => None
  }

  class AgentState {
    const id: AgentId
    /** The read authority. */
    var ephemeral: map<string, Json>
    /** The persistent tier (the in-memory backend). */
    const backend: InMemoryBackend
    /** Whether a NATS connection is attached. */
    var nats: bool
    /** Every publication handed to the NATS connection, oldest first. */
    var published: seq<Publication>

    constructor (id: AgentId, backend: InMemoryBackend)
      ensures this.id == id && this.backend == backend
      ensures ephemeral == map[] && !nats && published == []
    {
      this.id := id;
      this.backend := backend;
      ephemeral := map[];
      nats := false;
      published := [];
    }

    /** `with_nats`: attaches a NATS connection. */
    method WithNats()
      modifies this
      ensures nats
      ensures ephemeral == old(ephemeral) && published == old(published)
    {
      nats := true;
    }

    /** Copies this agent's namespace from the backend into the ephemeral map (entries already there are overwritten). */
    method LoadPersistentState()
      modifies this
      ensures ephemeral == old(ephemeral) + Loaded(id, backend.storage)
      ensures nats == old(nats) && published == old(published)
    {
      var prefix := Namespace(id);
      var keys := backend.ListKeys(Some(prefix));
      var i := 0;
      while i < |keys|
        invariant 0 <= i <= |keys|
        invariant forall k :: k in ephemeral <==> k in old(ephemeral) || PersistentKey(id, k) in keys[..i]
        invariant forall k :: k in ephemeral ==>
          ephemeral[k] == if PersistentKey(id, k) in keys[..i] then backend.storage[PersistentKey(id, k)] else old(ephemeral)[k]
        invariant nats == old(nats) && published == old(published)
      {
        var key := keys[i];
        assert keys[..i + 1] == keys[..i] + [key];
        var local := StripNamespace(id, key);
        if local.Some? {
          PersistentKeyOfStripped(id, key);
          forall k | PersistentKey(id, k) == key ensures k == local.value {
            PersistentKeyInjective(id, k, local.value);
          }
          var value := backend.Retrieve(key);
          if value.Some? {
            ephemeral := ephemeral[local.value := value.value];
          }
        }
        i := i + 1;
      }
      assert keys[..|keys|] == keys;
      forall k ensures k in ephemeral <==> k in old(ephemeral) + Loaded(id, backend.storage) {
        LoadedAt(id, backend.storage, k);
      }
      forall k | k in ephemeral ensures ephemeral[k] == (old(ephemeral) + Loaded(id, backend.storage))[k] {
        LoadedAt(id, backend.storage, k);
      }
    }

    /** Writes every ephemeral entry through to the backend under this agent's namespace. */
    method SavePersistentState()
      modifies backend
      ensures backend.storage == old(backend.storage) + Persisted(id, ephemeral)
    {
      var rest := ephemeral.Keys;
      ghost var before := backend.storage;
      ghost var eph := ephemeral;
      MapEdges(eph, before);
      PersistedEmpty(id, eph - rest);
      while rest != {}
        invariant rest <= eph.Keys && ephemeral == eph
        invariant backend.storage == before + Persisted(id, eph - rest)
        decreases |rest|
      {
        var key :| key in rest;
        ghost var written := Persisted(id, eph - rest);
        var pk := PersistentKey(id, key);
        PersistedExtend(id, eph, rest, key);
        UnionUpdate(before, written, pk, eph[key]);
        assert (before + written)[pk := eph[key]] == before + Persisted(id, eph - (rest - {key}));
        backend.Store(pk, ephemeral[key]);
        rest := rest - {key};
      }
    }

    /** The effect of one state action on both tiers, given the outcome of the backend call it makes. */
    twostate predicate ActionApplied(action: StateAction, fault: Option<Error>, new r: Result<()>)
      reads this, backend
    {
      var eph, st := old(ephemeral), old(backend.storage);
      match action
      case Store(key, value) =>
        && ephemeral == eph[key := value]
        && (fault.None? ==> backend.storage == st[PersistentKey(id, key) := value] && r == Ok(()))
        && (fault.Some? ==> backend.storage == st && r == Err(fault.value))
      case Get(key) =>
        && backend.storage == st
        && (key in eph ==> ephemeral == eph && r == Ok(()))
        && (key !in eph && fault.Some? ==> ephemeral == eph && r == Err(fault.value))
        && (key !in eph && fault.None? ==>
              r == Ok(()) &&
              ephemeral == if PersistentKey(id, key) in st then eph[key := st[PersistentKey(id, key)]] else eph)
      case Delete(key) =>
        && ephemeral == eph - {key}
        && (fault.None? ==> backend.storage == st - {PersistentKey(id, key)} && r == Ok(()))
        && (fault.Some? ==> backend.storage == st && r == Err(fault.value))
      case Clear =>
        && ephemeral == map[]
        && (fault.None? ==> backend.storage == map[] && r == Ok(()))
        && (fault.Some? ==> backend.storage == st && r == Err(fault.value))
      case List =>
        ephemeral == eph && backend.storage == st && r == Ok(())
    }

    /**
     * `handle_state_action`. `fault` is the outcome of the one backend call the
     * action makes (`None`: it succeeds); Get on a cached key and List make none.
     */
    method HandleStateAction(action: StateAction, fault: Option<Error>) returns (r: Result<()>)
      modifies this, backend
      ensures ActionApplied(action, fault, r)
      ensures nats == old(nats) && published == old(published)
    {
      match action {
        case Store(key, value) =>
          ephemeral := ephemeral[key := value];
          if fault.Some? {
            return Err(fault.value);
          }
          backend.Store(PersistentKey(id, key), value);
          r := Ok(());
        case Get(key) =>
          if key in ephemeral {
            return Ok(());
          }
          if fault.Some? {
            return Err(fault.value);
          }
          var value := backend.Retrieve(PersistentKey(id, key));
          if value.Some? {
            ephemeral := ephemeral[key := value.value];
          }
          r := Ok(());
        case Delete(key) =>
          ephemeral := ephemeral - {key};
          if fault.Some? {
            return Err(fault.value);
          }
          var _ := backend.Delete(PersistentKey(id, key));
          r := Ok(());
        case Clear =>
          ephemeral := map[];
          if fault.Some? {
            return Err(fault.value);
          }
          backend.Clear();
          r := Ok(());
        case List =>
          r := Ok(());
      }
    }

    /** The effect of recording an application message locally. */
    twostate predicate ApplicationApplied(message: Message, new r: Result<()>)
      reads this, backend
    {
      var recorded := old(ephemeral)[LastMessageKey(message.from) := message.payload];
      var data := GetField(message.payload, "data");
      var kind := MessageType(message.payload);
      if kind == Some("data_update") && data.Some? then
        ephemeral == recorded[ReceivedDataKey := data.value] && backend.storage == old(backend.storage) && r == Ok(())
      else if kind == Some("shutdown") then
        && ephemeral == recorded
        && backend.storage == old(backend.storage) + Persisted(id, recorded)
        && r == Err(Custom("Shutdown requested"))
      else
        ephemeral == recorded && backend.storage == old(backend.storage) && r == Ok(())
    }

    /**
     * `process_application_message`: records the payload as the sender's last
     * message, keeps the data of a data update, and on a shutdown saves the
     * state and reports shutdown as an error.
     */
    method ProcessApplicationMessage(message: Message) returns (r: Result<()>)
      modifies this, backend
      ensures ApplicationApplied(message, r)
      ensures nats == old(nats) && published == old(published)
    {
      ephemeral := ephemeral[LastMessageKey(message.from) := message.payload];
      var kind := MessageType(message.payload);
      if kind == Some("data_update") {
        var data := GetField(message.payload, "data");
        if data.Some? {
          ephemeral := ephemeral[ReceivedDataKey := data.value];
        }
      } else if kind == Some("shutdown") {
        SavePersistentState();
        return Err(Custom("Shutdown requested"));
      }
      r := Ok(());
    }

    /** The effect of forwarding a message to another agent over NATS. */
    twostate predicate Forwarded(message: Message, fault: Option<Error>, new r: Result<()>)
      reads this, backend
    {
      && ephemeral == old(ephemeral)
      && backend.storage == old(backend.storage)
      && (fault.None? ==>
            published == old(published) + [Publication(ForwardSubject(message.to), message)] && r == Ok(()))
      && (fault.Some? ==>
            published == old(published) && r == Err(Custom("NATS publish failed: " + Display(fault.value))))
    }

    /**
     * `handle_message`, in its fixed order: a payload that decodes as a state
     * action is applied here whoever it is addressed to; otherwise, with NATS
     * attached, a message for another agent is forwarded and nothing else
     * happens; otherwise it is processed as an application message. `fault` is
     * the outcome of the backend call or the NATS publish the message triggers.
     */
    method HandleMessage(message: Message, fault: Option<Error>) returns (r: Result<()>)
      modifies this, backend
      ensures nats == old(nats)
      ensures DecodeStateAction(message.payload).Some? ==>
        ActionApplied(DecodeStateAction(message.payload).value, fault, r) && published == old(published)
      ensures DecodeStateAction(message.payload).None? && nats && message.to != id ==>
        Forwarded(message, fault, r)
      ensures DecodeStateAction(message.payload).None? && !(nats && message.to != id) ==>
        ApplicationApplied(message, r) && published == old(published)
    {
      var action := DecodeStateAction(message.payload);
      if action.Some? {
        r := HandleStateAction(action.value, fault);
        return;
      }
      if nats && message.to != id {
        if fault.Some? {
          return Err(Custom("NATS publish failed: " + Display(fault.value)));
        }
        published := published + [Publication(ForwardSubject(message.to), message)];
        return Ok(());
      }
      r := ProcessApplicationMessage(message);
    }
  }

  /** Removing every key leaves nothing, removing none leaves all, and a union with nothing changes nothing. */
  lemma MapEdges(m: map<string, Json>, n: map<string, Json>)
    ensures m - m.Keys == map[] && m - {} == m && n + map[] == n
  {
  }

  /** Updating a union updates its right operand. */
  lemma UnionUpdate(a: map<string, Json>, b: map<string, Json>, k: string, v: Json)
    ensures (a + b)[k := v] == a + b[k := v]
  {
  }

  lemma PersistedEmpty(id: AgentId, eph: map<string, Json>)
    requires eph == map[]
    ensures Persisted(id, eph) == map[]
  {
    forall pk | pk in Persisted(id, eph) ensures false {
      PersistedAt(id, eph, pk);
    }
  }

  lemma LoadedEmpty(id: AgentId)
    ensures Loaded(id, map[]) == map[]
  {
    assert LocalKeys(id, map[]) == {};
  }

  /** Loading what was saved into an empty backend gives back exactly the saved map. */
  lemma SaveIntoEmptyThenLoad(id: AgentId, eph: map<string, Json>)
    ensures Loaded(id, map[] + Persisted(id, eph)) == eph
  {
    LoadedEmpty(id);
    SaveThenLoadRestores(id, eph, map[]);
  }

  /** Adding one more saved key to the part already written. */
  lemma PersistedExtend(id: AgentId, eph: map<string, Json>, rest: set<string>, key: string)
    requires key in rest && rest <= eph.Keys
    ensures Persisted(id, eph - (rest - {key})) == Persisted(id, eph - rest)[PersistentKey(id, key) := eph[key]]
  {
    var a := Persisted(id, eph - (rest - {key}));
    var b := Persisted(id, eph - rest)[PersistentKey(id, key) := eph[key]];
    StripPersistentKey(id, key);
    forall pk ensures (pk in a <==> pk in b) && (pk in a ==> a[pk] == b[pk]) {
      PersistedAt(id, eph - (rest - {key}), pk);
      PersistedAt(id, eph - rest, pk);
      if pk != PersistentKey(id, key) && StripNamespace(id, pk).Some? {
        PersistentKeyOfStripped(id, pk);
      }
    }
  }

  // ---------------------------------------------------------------------------
  // Scenarios on a fresh agent
  // ---------------------------------------------------------------------------

  /**
   * Save, clear the ephemeral map, load: on a fresh backend every entry comes
   * back, and nothing else does.
   */
  method SaveClearLoadScenario(id: AgentId, entries: map<string, Json>) returns (restored: map<string, Json>)
    ensures restored == entries
  {
    var backend := new InMemoryBackend();
    var agent := new AgentState(id, backend);
    agent.ephemeral := entries;
    agent.SavePersistentState();
    ghost var saved := backend.storage;
    assert saved == map[] + Persisted(id, entries);
    agent.ephemeral := map[];
    agent.LoadPersistentState();
    restored := agent.ephemeral;
    assert restored == map[] + Loaded(id, saved);
    SaveIntoEmptyThenLoad(id, entries);
  }

  /**
   * A message whose payload is a serialised Store action, addressed to another
   * agent while NATS is attached, is applied locally and not forwarded.
   */
  method StateActionMessageScenario(id: AgentId, other: AgentId, key: string, value: Json)
    returns (r: Result<()>, cached: Option<Json>, persisted: Option<Json>, forwards: nat)
    requires other != id
    ensures r == Ok(())
    ensures cached == Some(value) && persisted == Some(value)
    ensures forwards == 0
  {
    var backend := new InMemoryBackend();
    var agent := new AgentState(id, backend);
    agent.WithNats();
    DecodeEncodeStateAction(Store(key, value));
    var message := Message("msg_1", id, other, EncodeStateAction(Store(key, value)), 12345);
    r := agent.HandleMessage(message, None);
    cached := if key in agent.ephemeral then Some(agent.ephemeral[key]) else None;
    persisted := backend.Retrieve(PersistentKey(id, key));
    forwards := |agent.published|;
  }

  /**
   * An application message for another agent, with NATS attached, is published
   * once on `agent.{to}` and leaves both tiers untouched.
   */
  method ForwardScenario(id: AgentId, other: AgentId, kind: string)
    returns (r: Result<()>, published: seq<Publication>, ephemeral: map<string, Json>)
    requires other != id
    ensures r == Ok(())
    ensures |published| == 1 && published[0].subject == "agent." + other.name
    ensures ephemeral == map[]
  {
    var backend := new InMemoryBackend();
    var agent := new AgentState(id, backend);
    agent.WithNats();
    var payload := JObject(map["type" := JString(kind)]);
    TypedPayloadIsNotStateAction(payload.fields);
    var message := Message("msg_2", id, other, payload, 12345);
    r := agent.HandleMessage(message, None);
    published := agent.published;
    ephemeral := agent.ephemeral;
  }
}
