/** `replace_all_developers`: rewrite one session's log in the store. */
module Compactor {
  import opened JsonValues
  import opened Messages
  import opened History
  import opened SessionStore

  /**
   * Reads the session's log, splits it by role, scrubs the older user messages, then rewrites
   * the store: the key `session:{id}:items` is deleted and the other messages, the cleaned user
   * history (each only when non-empty) and one fresh developer message are appended.
   */
  method ReplaceAllDevelopers(session: RedisSession<Message>, devContent: string,
                              loads: string -> Option<Json>, dumps: Json -> string)
    modifies session.redisClient
    ensures var items := old(session.redisClient.Get(session.itemsKey));
      var others, cleaned := OtherMessages(items), CleanedHistory(UserMessages(items), loads, dumps);
      session.redisClient.ops == old(session.redisClient.ops) + [DeleteKey(SessionItemsKey(session.sessionId))]
        + (if others != [] then [Append(session.itemsKey, others)] else [])
        + (if cleaned != [] then [Append(session.itemsKey, cleaned)] else [])
        + [Append(session.itemsKey, [DeveloperMessage(devContent)])]
    ensures session.redisClient.lists == Appended(old(session.redisClient.lists) - {SessionItemsKey(session.sessionId)},
      session.itemsKey, Compacted(old(session.redisClient.Get(session.itemsKey)), devContent, loads, dumps))
  {
    // 1. fetch the session's messages
    var items := session.GetItems();
    // 2. split by role
    var userMsgs := UserMessages(items);
    var otherMsgs := OtherMessages(items);
    // 3. scrub every user message but the latest
    var cleanedUserHistory := CleanUserHistory(userMsgs, loads, dumps);
    // 4. and 5. delete this session's key and append the fresh content
    var developer := DeveloperMessage(devContent);
    Rewrite(session, otherMsgs, cleanedUserHistory, developer);
  }

  /**
   * Steps 4 and 5: deletes the key `session:{id}:items`, then appends `others` and `cleaned`
   * when they are non-empty and the single `developer` message last.
   */
  method Rewrite<T>(session: RedisSession<T>, others: seq<T>, cleaned: seq<T>, developer: T)
    modifies session.redisClient
    ensures session.redisClient.ops == old(session.redisClient.ops) + [DeleteKey(SessionItemsKey(session.sessionId))]
      + (if others != [] then [Append(session.itemsKey, others)] else [])
      + (if cleaned != [] then [Append(session.itemsKey, cleaned)] else [])
      + [Append(session.itemsKey, [developer])]
    ensures session.redisClient.lists == Appended(old(session.redisClient.lists) - {SessionItemsKey(session.sessionId)},
      session.itemsKey, others + cleaned + [developer])
  {
    var sessionKey := SessionItemsKey(session.sessionId);
    ghost var base := session.redisClient.lists - {sessionKey};
    session.redisClient.Delete(sessionKey);
    if others != [] {
      session.AddItems(others);
    }
    assert session.redisClient.lists == Appended(base, session.itemsKey, others);
    if cleaned != [] {
      session.AddItems(cleaned);
    }
    assert session.redisClient.lists == Appended(Appended(base, session.itemsKey, others), session.itemsKey, cleaned);
    session.AddItems([developer]);
    AppendedTwice(base, session.itemsKey, others, cleaned);
    AppendedTwice(base, session.itemsKey, others + cleaned, [developer]);
  }

  /**
   * What the rewrite leaves in the store: when the session keeps its items under
   * `session:{id}:items` its log is exactly the compacted log; every key other than that one and
   * the session's own keeps its list.
   */
  lemma RewrittenStore(before: map<string, seq<Message>>, after: map<string, seq<Message>>,
                       sessionId: string, itemsKey: string, log: seq<Message>)
    requires after == Appended(before - {SessionItemsKey(sessionId)}, itemsKey, log)
    ensures itemsKey == SessionItemsKey(sessionId) ==> Lookup(after, itemsKey) == log
    ensures itemsKey != SessionItemsKey(sessionId) ==> Lookup(after, itemsKey) == Lookup(before, itemsKey) + log
    ensures forall key :: key != itemsKey && key != SessionItemsKey(sessionId) ==> Lookup(after, key) == Lookup(before, key)
  {
    var deleted := SessionItemsKey(sessionId);
    AppendedAt(before - {deleted}, itemsKey, log);
    forall key | key != itemsKey && key != deleted
      ensures Lookup(after, key) == Lookup(before, key)
    {
      AppendedElsewhere(before - {deleted}, itemsKey, log, key);
    }
  }

  /**
   * When the session stores its items under `session:{id}:items`, the rewrite leaves the list of
   * every other session untouched.
   */
  lemma OtherSessionSpared(before: map<string, seq<Message>>, after: map<string, seq<Message>>,
                           sessionId: string, itemsKey: string, log: seq<Message>, otherId: string)
    requires after == Appended(before - {SessionItemsKey(sessionId)}, itemsKey, log)
    requires itemsKey == SessionItemsKey(sessionId)
    requires otherId != sessionId
    ensures Lookup(after, SessionItemsKey(otherId)) == Lookup(before, SessionItemsKey(otherId))
  {
    if SessionItemsKey(otherId) == SessionItemsKey(sessionId) {
      SessionItemsKeyInjective(otherId, sessionId);
    }
    RewrittenStore(before, after, sessionId, itemsKey, log);
  }
}
