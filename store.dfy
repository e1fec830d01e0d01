/**
 * The backing store as the compactor sees it: a key-value store of lists, and a session handle
 * bound to one session id.
 */
module SessionStore {

  /** One store call issued through the client. */
  datatype StoreOp<T> = DeleteKey(key: string) | Append(key: string, items: seq<T>)

  /** The key the compactor deletes for a session: `f"session:{session_id}:items"`. */
  function SessionItemsKey(sessionId: string): (k: string)
    ensures |k| == |sessionId| + 14
    ensures k[..8] == "session:" && k[8..8 + |sessionId|] == sessionId && k[8 + |sessionId|..] == ":items"
  {
    "session:" + sessionId + ":items"
  }

  /** Distinct session ids give distinct keys, so deleting one session's key spares every other session's. */
  lemma SessionItemsKeyInjective(a: string, b: string)
    requires SessionItemsKey(a) == SessionItemsKey(b)
    ensures a == b
  {
    var ka, kb := SessionItemsKey(a), SessionItemsKey(b);
    assert |a| == |b|;
    assert ka[8..8 + |a|] == a;
    assert kb[8..8 + |b|] == b;
  }

  /** The list stored under `key`; a missing key reads as the empty list. */
  function Lookup<T>(lists: map<string, seq<T>>, key: string): seq<T>
  {
    if key in lists then lists[key] else []
  }

  /** The store after pushing `items` onto the list under `key`; pushing nothing changes nothing. */
  function Appended<T>(lists: map<string, seq<T>>, key: string, items: seq<T>): map<string, seq<T>>
  {
    if items == [] then lists else lists[key := Lookup(lists, key) + items]
  }

  /** The list under `key` grows by exactly the pushed items. */
  lemma AppendedAt<T>(lists: map<string, seq<T>>, key: string, items: seq<T>)
    ensures Lookup(Appended(lists, key, items), key) == Lookup(lists, key) + items
  {
    if items == [] {
      assert Lookup(lists, key) + items == Lookup(lists, key);
    }
  }

  /** Every other key keeps its list. */
  lemma AppendedElsewhere<T>(lists: map<string, seq<T>>, key: string, items: seq<T>, other: string)
    requires other != key
    ensures other in Appended(lists, key, items) <==> other in lists
    ensures Lookup(Appended(lists, key, items), other) == Lookup(lists, other)
  {
  }

  /** Two pushes onto one key amount to one push of both batches in order. */
  lemma AppendedTwice<T>(lists: map<string, seq<T>>, key: string, first: seq<T>, second: seq<T>)
    ensures Appended(Appended(lists, key, first), key, second) == Appended(lists, key, first + second)
  {
    if first == [] {
      assert first + second == second;
    } else if second == [] {
      assert first + second == first;
    } else {
      var once := Appended(lists, key, first);
      assert Lookup(once, key) == Lookup(lists, key) + first;
      assert Lookup(lists, key) + first + second == Lookup(lists, key) + (first + second);
    }
  }

  /** A Redis-like client holding one list of items (messages) per key. */
  class RedisClient<T> {
    var lists: map<string, seq<T>>
    /** Every call made on the client, in order. */
    ghost var ops: seq<StoreOp<T>>

    constructor ()
      ensures lists == map[] && ops == []
    {
      lists := map[];
      ops := [];
    }

    function Get(key: string): seq<T>
      reads this
    {
      Lookup(lists, key)
    }

    /** `delete(key)`: removes one key and nothing else. */
    method Delete(key: string)
      modifies this
      ensures lists == old(lists) - {key}
      ensures ops == old(ops) + [DeleteKey(key)]
    {
      lists := lists - {key};
      ops := ops + [DeleteKey(key)];
    }

    /** Appends `items`, in order, to the list under `key`. */
    method Push(key: string, items: seq<T>)
      modifies this
      ensures lists == Appended(old(lists), key, items)
      ensures ops == old(ops) + [Append(key, items)]
    {
      lists := Appended(lists, key, items);
      ops := ops + [Append(key, items)];
    }
  }

  /**
   * The session handle: its id, the key under which its items are stored, and its client.
   * The storage key is chosen by the session library, whose code is not part of this model.
   */
  class RedisSession<T> {
    const sessionId: string
    const itemsKey: string
    const redisClient: RedisClient<T>

    constructor (sessionId: string, itemsKey: string, redisClient: RedisClient<T>)
      ensures this.sessionId == sessionId && this.itemsKey == itemsKey && this.redisClient == redisClient
    {
      this.sessionId := sessionId;
      this.itemsKey := itemsKey;
      this.redisClient := redisClient;
    }

    /** `get_items()`: the whole stored log of this session, in order. */
    method GetItems() returns (items: seq<T>)
      ensures items == redisClient.Get(itemsKey)
    {
      items := redisClient.Get(itemsKey);
    }

    /** `add_items(items)`: appends to this session's log. */
    method AddItems(items: seq<T>)
      modifies redisClient
      ensures redisClient.lists == Appended(old(redisClient.lists), itemsKey, items)
      ensures redisClient.ops == old(redisClient.ops) + [Append(itemsKey, items)]
    {
      redisClient.Push(itemsKey, items);
    }
  }
}
