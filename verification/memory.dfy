/**
 * The in-memory key/value backend (`InMemoryBackend`): a map from string keys
 * to JSON values with store, retrieve, delete, prefix listing and clear. The
 * mutex around the map is absent: the model is one owner calling one
 * operation at a time.
 */
module Memory {
  import opened Wrappers
  import opened Json

  /** Whether `key` is selected by the optional prefix filter of `list_keys`. */
  predicate MatchesPrefix(key: string, prefix: Option<string>) {
    match prefix
    case None => true
    case Some(p) => p <= key
  }

  predicate NoDuplicates<T(==)>(s: seq<T>) {
    forall i, j :: 0 <= i < j < |s| ==> s[i] != s[j]
  }

  /** A list without repetitions is as long as the set of its elements. */
  lemma {:induction false} DistinctLength<T>(s: seq<T>)
    requires NoDuplicates(s)
    ensures |s| == |set x | x in s|
  {
    if s != [] {
      DistinctLength(s[1..]);
      assert (set x | x in s) == (set x | x in s[1..]) + {s[0]};
      assert s[0] !in (set x | x in s[1..]);
    }
  }

  /** A list without repetitions whose members are exactly `expected` enumerates `expected`. */
  lemma ListedExactly<T>(s: seq<T>, expected: set<T>)
    requires NoDuplicates(s)
    requires forall x :: x in s <==> x in expected
    ensures |s| == |expected|
  {
    DistinctLength(s);
    assert (set x | x in s) == expected;
  }

  class InMemoryBackend {
    var storage: map<string, Json>

    constructor ()
      ensures storage == map[]
    {
      storage := map[];
    }

    /** Inserts or overwrites `key`; every other key keeps its value. */
    method Store(key: string, value: Json)
      modifies this
      ensures storage == old(storage)[key := value]
    {
      storage := storage[key := value];
    }

    /** The stored value of `key`, if any; the storage is only read. */
    method Retrieve(key: string) returns (r: Option<Json>)
      ensures r.Some? <==> key in storage
      ensures r.Some? ==> r.value == storage[key]
    {
      r := if key in storage then Some(storage[key]) else None;
    }

    /** Removes `key`; reports whether it was there. */
    method Delete(key: string) returns (existed: bool)
      modifies this
      ensures existed <==> key in old(storage)
      ensures storage == old(storage) - {key}
    {
      existed := key in storage;
      storage := storage - {key};
    }

    /**
     * The stored keys that start with `prefix` (all keys for `None`), each once,
     * in no particular order (the hash map's iteration order is not modelled).
     */
    method ListKeys(prefix: Option<string>) returns (keys: seq<string>)
      ensures forall k :: k in keys <==> k in storage && MatchesPrefix(k, prefix)
      ensures NoDuplicates(keys)
    {
      keys := [];
      var rest := storage.Keys;
      while rest != {}
        invariant rest <= storage.Keys
        invariant forall k :: k in keys <==> k in storage && k !in rest && MatchesPrefix(k, prefix)
        invariant NoDuplicates(keys)
        decreases |rest|
      {
        var k :| k in rest;
        if MatchesPrefix(k, prefix) {
          keys := keys + [k];
        }
        rest := rest - {k};
      }
    }

    /** Removes every entry. */
    method Clear()
      modifies this
      ensures storage == map[]
    {
      storage := map[];
    }
  }

  /**
   * Store, retrieve, delete and retrieve again on a fresh backend, for any key
   * and value: the stored value comes back, the delete reports success, and the
   * key is gone afterwards.
   */
  method StoreRetrieveDeleteScenario(key: string, value: Json)
    returns (retrieved: Option<Json>, listed: seq<string>, deleted: bool, afterDelete: Option<Json>)
    ensures retrieved == Some(value)
    ensures key in listed
    ensures deleted
    ensures afterDelete == None
  {
    var backend := new InMemoryBackend();
    backend.Store(key, value);
    retrieved := backend.Retrieve(key);
    listed := backend.ListKeys(None);
    deleted := backend.Delete(key);
    afterDelete := backend.Retrieve(key);
  }

  /**
   * Storing the same key twice keeps the later value (last writer wins), and a
   * second delete of the same key reports that nothing was there.
   */
  method OverwriteAndDoubleDeleteScenario(key: string, first: Json, second: Json)
    returns (retrieved: Option<Json>, deletedFirst: bool, deletedSecond: bool, remaining: seq<string>)
    ensures retrieved == Some(second)
    ensures deletedFirst && !deletedSecond
    ensures remaining == []
  {
    var backend := new InMemoryBackend();
    backend.Store(key, first);
    backend.Store(key, second);
    retrieved := backend.Retrieve(key);
    deletedFirst := backend.Delete(key);
    deletedSecond := backend.Delete(key);
    remaining := backend.ListKeys(None);
    ListedExactly(remaining, {});
  }

  /**
   * Prefix filtering over three keys: the prefix "agent" selects the two agent
   * keys and nothing else, the prefix "system" selects the one system key;
   * after clear, nothing is listed.
   */
  method PrefixFilteringScenario(value: Json)
    returns (agentKeys: seq<string>, systemKeys: seq<string>, afterClear: seq<string>)
    ensures |agentKeys| == 2 && "agent1:state" in agentKeys && "agent2:state" in agentKeys
    ensures systemKeys == ["system:config"]
    ensures afterClear == []
  {
    var backend := new InMemoryBackend();
    backend.Store("agent1:state", value);
    backend.Store("agent2:state", value);
    backend.Store("system:config", value);
    assert backend.storage.Keys == {"agent1:state", "agent2:state", "system:config"};
    assert "system:config"[0] != "agent"[0];
    assert "agent" <= "agent1:state" && "agent" <= "agent2:state" && !("agent" <= "system:config");
    agentKeys := backend.ListKeys(Some("agent"));
    ListedExactly(agentKeys, {"agent1:state", "agent2:state"});
    assert !("system" <= "agent1:state") && !("system" <= "agent2:state") && "system" <= "system:config";
    systemKeys := backend.ListKeys(Some("system"));
    ListedExactly(systemKeys, {"system:config"});
    assert systemKeys[0] in systemKeys;
    backend.Clear();
    afterClear := backend.ListKeys(None);
    ListedExactly(afterClear, {});
  }
}
