# Session history compaction

A Dafny model of `replace_all_developers` in `test1.py`. The routine compacts one chat
session's stored message log, in five steps:

1. It reads the log through the session handle.
2. It splits the log by role:
   - the `user` messages form one group;
   - every message whose role is neither `user` nor `developer` forms another group, including
     messages without a role;
   - earlier `developer` messages are dropped.
3. It scrubs the `grade_details` key from the JSON content of every user message except the
   latest one.
4. It deletes the key `session:{session_id}:items` from the Redis-like store.
5. It appends the other messages, the cleaned user history and one fresh `developer` message.
   Each of the first two groups is appended only when it is non-empty.

The project has these modules:

- `JsonValues` (`json.dfy`): decoded JSON values and an `Option` type.
- `Messages` (`messages.dfy`):
  - a message as a dictionary (`map<string, Json>`) and the role tests of the comprehensions;
  - the outcome of `json.loads(msg["content"])`, one case per exception the code catches;
  - `ScrubValue`, the `in`/`del` step on a decoded value, with the Python semantics for objects,
    lists, strings and scalars;
  - `ScrubMessage`, the whole try/except body.
- `Filtering` (`filtering.dfy`): the list comprehension `[x for x in s if p(x)]` and its laws:
  membership, multiplicity, splitting over concatenation, and where the last kept element sits.
- `History` (`history.dfy`):
  - the role groups;
  - the cleaned user history, as a function and as the imperative loop proved equal to it;
  - the compacted log, with the properties the routine promises about it.
- `SessionStore` (`store.dfy`):
  - `RedisClient`, a class holding one list per key, with `Delete` and `Push` methods and a
    ghost log of the calls made;
  - `RedisSession`, the session handle with `GetItems` and `AddItems`.
- `Compactor` (`compactor.dfy`): the routine itself, as a method taking the session handle, plus
  what the rewrite leaves in the store.
- `Scenarios` (`scenarios.dfy`): worked examples of the compaction on concrete logs.

`json.loads` and `json.dumps` are function parameters: `loads` returns `None` where Python
raises `JSONDecodeError`. The general properties hold for every pair of such functions, with two
exceptions:

- `History.OlderObjectReparses` needs decoding to give back the one scrubbed object that was
  encoded.
- The worked examples in `Scenarios` assume the text that `loads` and `dumps` give for their
  concrete contents. Those texts are the ones Python's codec produces with its default
  separators, for example `{"a": 1}`.

The session library chooses the key under which a session's items are really stored, and that
library's code is not part of this model. So `RedisSession` carries that key as `itemsKey`,
separate from the key `session:{id}:items` that the routine deletes. `Compactor.RewrittenStore`
covers both cases:

- when the two keys agree, the session's list becomes exactly the compacted log;
- when they differ, the compacted log is appended after the old log, which stays in place.

The fresh developer message is appended last, after the cleaned user history.

Decoded content that passes the key test is re-serialized by `json.dumps`, even when it had no
`grade_details` key. Its text may therefore differ from the stored text:

- in separators, e.g. `{"a":1}` becomes `{"a": 1}`;
- in escapes, since with `ensure_ascii=False` `\u00e9` becomes `é` and `\/` becomes `/`;
- in number spelling, e.g. `1E2` becomes `100.0`;
- in repeated keys, which collapse to one.

Key order is written back as decoded. The model's `Obj` is an unordered map, so it does not
capture that order.

## Model

| member | source | states |
|---|---|---|
| Messages.HasRole | test1.py:8 | `m.get("role") == role` never matches a message without a role or with a role that is not a string |
| Messages.IsOther | test1.py:9 | a message without a role is an other message, and every message passes exactly one of the user, developer and other tests |
| Messages.HasSubstringOccurs | test1.py:23 | Python's `in` on strings, `HasSubstring(s, t)`, holds iff `t` occurs in `s` at some index |
| Messages.LoadContent | test1.py:22 | a missing `content` key gives KeyError, non-string content gives TypeError, text the decoder rejects gives JSONDecodeError, and otherwise the decoded value |
| Messages.DeveloperMessage | test1.py:49 | the fresh message has role `developer` (so it is not a user message), exactly the keys `role` and `content`, and the given content |
| Messages.ScrubValue | test1.py:23-24 | an object loses exactly the `grade_details` key and keeps every other key with its value; a list raises TypeError iff the string `grade_details` is one of its elements; a string raises iff it contains `grade_details`; null, booleans and numbers always raise; a non-object that does not raise is passed on unchanged |
| Messages.ScrubMessage | test1.py:20-31 | the keys and every field other than `content` are kept, and so is the role; content that decodes to an object becomes the re-serialized object without `grade_details`; a list or string that passes the key test is re-serialized as decoded; a missing or non-string content, undecodable text, or a TypeError from the key test leaves the message unchanged |
| Filtering.Filter | test1.py:8-9 | the selection is no longer than its input and every selected element satisfies the predicate |
| Filtering.FilterMembers | test1.py:8-9 | an element is in the selection iff it is in the input and satisfies the predicate |
| Filtering.FilterCount | test1.py:8-9 | each qualifying element occurs in the selection as often as in the input; any other element does not occur |
| Filtering.FilterAppend | test1.py:8-9 | selecting from a concatenation gives the concatenation of the two selections, so relative order is kept |
| Filtering.FilterNone | test1.py:8-9 | when no element qualifies, the selection is empty |
| Filtering.FilterLast | test1.py:14-15 | the last selected element is the input element at some index `i` that qualifies, and no element after `i` qualifies |
| History.UserMessages | test1.py:8 | the user group is no longer than the log and holds only user messages |
| History.OtherMessages | test1.py:9 | the other group is no longer than the log and holds neither user nor developer messages |
| History.CleanedHistory | test1.py:11-31 | the cleaned history has as many messages as the user group, and its last message is the latest user message, unchanged |
| History.CleanedAt | test1.py:18-31 | every position except the last holds the scrubbed form of the user message at that position |
| History.CleanUserHistory | test1.py:11-31 | the loop over `enumerate(user_msgs)` builds exactly the cleaned history: the latest message is appended as it is and every older one is appended scrubbed |
| History.Compacted | test1.py:41-49 | the new log has one message per other message and per user message, plus one, and ends with the fresh developer message |
| History.CompactedAt | test1.py:41-49 | the new log is the other messages, then the cleaned user history, then the fresh developer message, at those positions and with those lengths |
| History.Partition | test1.py:8-9 | the user, other and developer groups together hold every input message exactly as often as the input does |
| History.GroupsKeepOrder | test1.py:8-9 | splitting the input into two parts splits each of the user and other groups the same way, so each group keeps the input order |
| History.RolelessKept | test1.py:9 | a message without a `role` key goes to the other group and never to the user group |
| History.OnlyFreshDeveloper | test1.py:41-49 | the last message of the new log is the fresh developer message, and no other position holds a developer message, so no earlier developer message survives |
| History.LastUserIsLatest | test1.py:14-17 | the last entry of the user group is a user message of the input after which no user message follows |
| History.LatestUserUnchanged | test1.py:14-17 | in the new log, the position ending the user block holds the latest user message, unmodified |
| History.OlderObjectScrubbed | test1.py:20-28 | an older user message whose content decodes to an object appears, at its position in the new log, with content equal to the re-serialized object without `grade_details` and every other field kept; it is still a user message |
| History.OlderObjectReparses | test1.py:22-27 | when decoding gives back the encoded scrubbed object, that rewritten content decodes to exactly the original object without `grade_details`, so it has no `grade_details` key and keeps every other key with its value |
| History.OlderFallbackKept | test1.py:29-31 | an older user message with missing content, non-string content, undecodable content, or content on which the key test raises is kept unchanged at its position |
| History.CleanedKeepsFields | test1.py:27 | every message of the cleaned history has the keys, the role and every non-content field of the user message at the same position |
| History.OnlyDevelopersCompactToHeader | test1.py:41-49 | an empty log, or one holding only developer messages, compacts to the single fresh developer message |
| SessionStore.SessionItemsKey | test1.py:36 | the key is `session:`, then the session id, then `:items` |
| SessionStore.SessionItemsKeyInjective | test1.py:36 | distinct session ids give distinct `session:{id}:items` keys |
| SessionStore.RedisClient.Delete | test1.py:37 | the key is removed from the store, nothing else changes, and one delete call is logged |
| SessionStore.RedisClient.Push | test1.py:42 | the items are appended in order to the list under the key, other keys keep their lists, and one append call is logged |
| SessionStore.RedisSession.GetItems | test1.py:5 | returns the whole list stored under the session's key, in order |
| SessionStore.RedisSession.AddItems | test1.py:42 | appends the items to the session's list through its client and logs one append call |
| Compactor.ReplaceAllDevelopers | test1.py:3-49 | the calls made are one delete of `session:{id}:items`, an append of the other messages only when there are any, an append of the cleaned history only when there is one, then an append of the single fresh developer message; the store afterwards is the old store without the deleted key, with the compacted log of the old items appended under the session's key |
| Compactor.Rewrite | test1.py:33-49 | the delete is followed by the appends in order; the conditional appends leave the store as one append of the concatenated messages |
| Compactor.RewrittenStore | test1.py:36-49 | if the session stores its items under `session:{id}:items`, its list afterwards is exactly the compacted log; otherwise that log is appended to its old list; every other key keeps its list |
| Compactor.OtherSessionSpared | test1.py:36-37 | when the session stores its items under `session:{id}:items`, every other session's list under its own such key is the same after the rewrite as before |
| Scenarios.SingleUserKept | test1.py:14-17 | a log holding one user message that contains `grade_details` compacts to that same message followed by the fresh developer message |
| Scenarios.OlderOfTwoScrubbed | test1.py:14-31 | of two user messages, the older loses `grade_details` and keeps `a`, and the latest is unchanged, followed by the fresh developer message |
| Scenarios.MixedRoles | test1.py:8-49 | for an assistant message, an older user message holding only `grade_details`, an old developer message and a non-JSON latest user message, the new log is the assistant message, the older user message with content `{}`, the unchanged latest user message and the fresh developer message |

## Left out

- test.py: agent persona configuration in a third-party SDK, an API key read from the
  environment, and an interactive read-print loop. None of it feeds the compactor.
- The internals of the Redis client and of the session library behind `get_items`, `add_items`
  and `delete`. The store is a map from keys to lists, and `add_items` appends to the list under
  the session's storage key.
- Which key the session library really stores items under. It is the parameter `itemsKey`;
  the code's own comment says the deleted key is only what it "usually" is.
- `async`/`await` scheduling and concurrent compactions of one session. The code does no
  locking, and the awaited calls are modelled as sequential method calls.
- Store failures. An exception raised after the delete but before the appends leaves a partial
  or empty log. The model claims no atomicity, and `ReplaceAllDevelopers` describes only the
  run in which every store call succeeds.
- The JSON text format: `ensure_ascii=False`, whitespace, and key order. `loads`/`dumps` are
  abstract parameters. Numbers are `real`, so the model does not separate integers from floats
  and has no NaN or infinities.
- Content given as `bytes`/`bytearray`, which `json.loads` also accepts, is treated like any
  other non-string content.
- Log entries that are not dictionaries. On those, `m.get` raises AttributeError, which the
  code does not catch.
- In-place mutation of the message dictionaries. `msg["content"] = …` is modelled on values,
  so aliasing between the read log and other holders of the same dictionaries is not captured.
- An `add_items` call with an empty list. Pushing nothing leaves the store unchanged, as an
  empty Redis list does not exist as a key. The routine never makes such a call.
- Exceptions from the codec that test1.py:29 does not catch. Two are known:
  - `RecursionError` from `json.loads` or `json.dumps` on deeply nested content;
  - the plain `ValueError` (not a `JSONDecodeError`) that `json.loads` raises for an integer
    literal longer than Python's int-to-string conversion limit, 4300 digits by default.

  Either one leaves the routine before the delete at test1.py:37, so the store stays as it was.
  `loads` returns either a value or the caught decode error, and `dumps` always returns text, so
  the model has no such outcome. In particular it sends such content to the keep-as-is fallback,
  where Python raises instead.
