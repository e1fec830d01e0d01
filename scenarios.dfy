/**
 * Worked examples of the compaction. The JSON codec stays abstract: each example assumes only
 * how `json.loads` reads its inputs and how `json.dumps` writes the scrubbed object.
 */
module Scenarios {
  import opened JsonValues
  import opened Messages
  import opened History

  function Msg(role: string, content: string): Message
  {
    map[RoleKey := Str(role), ContentKey := Str(content)]
  }

  lemma MsgRole(role: string, content: string, r: string)
    ensures HasRole(Msg(role, content), r) <==> role == r
  {
  }

  /** Scrubbing a message whose content decodes to an object rewrites just the content. */
  lemma ScrubObjectMsg(role: string, text: string, fields: map<string, Json>,
                       loads: string -> Option<Json>, dumps: Json -> string)
    requires loads(text) == Some(Obj(fields))
    ensures ScrubMessage(Msg(role, text), loads, dumps) == Msg(role, dumps(Obj(fields - {ScrubbedKey})))
  {
    var m := Msg(role, text);
    assert LoadContent(m, loads) == Parsed(Obj(fields));
    assert m[ContentKey := Str(dumps(Obj(fields - {ScrubbedKey})))] == Msg(role, dumps(Obj(fields - {ScrubbedKey})));
  }

  /** Two user messages: the older is scrubbed, the latest kept. */
  lemma CleanedPair(older: Message, latest: Message, loads: string -> Option<Json>, dumps: Json -> string)
    ensures CleanedHistory([older, latest], loads, dumps) == [ScrubMessage(older, loads, dumps), latest]
  {
    assert [older, latest][1..] == [latest];
  }

  /** A single user message is the latest one, so its scrubbed field stays. */
  lemma SingleUserKept(header: string, loads: string -> Option<Json>, dumps: Json -> string)
    ensures var m := Msg("user", "{\"grade_details\":1,\"x\":2}");
      Compacted([m], header, loads, dumps) == [m, DeveloperMessage(header)]
  {
    var m := Msg("user", "{\"grade_details\":1,\"x\":2}");
    assert [m][1..] == [];
    assert UserMessages([m]) == [m];
    assert OtherMessages([m]) == [];
  }

  /** Selection from a two-element sequence, element by element. */
  lemma FilterTwo<T>(a: T, b: T, p: T -> bool)
    ensures Filtering.Filter([a, b], p) == (if p(a) then [a] else []) + (if p(b) then [b] else [])
  {
    assert [a, b][1..] == [b];
    assert [b][1..] == [];
  }

  /** Of two user messages the older loses `grade_details` and keeps `a`; the latest is untouched. */
  lemma OlderOfTwoScrubbed(header: string, loads: string -> Option<Json>, dumps: Json -> string)
    requires loads("{\"grade_details\":5,\"a\":1}") == Some(Obj(map["grade_details" := Num(5.0), "a" := Num(1.0)]))
    requires dumps(Obj(map["a" := Num(1.0)])) == "{\"a\": 1}"
    ensures var older, latest := Msg("user", "{\"grade_details\":5,\"a\":1}"), Msg("user", "{\"a\":2}");
      Compacted([older, latest], header, loads, dumps)
        == [Msg("user", "{\"a\": 1}"), latest, DeveloperMessage(header)]
  {
    var older, latest := Msg("user", "{\"grade_details\":5,\"a\":1}"), Msg("user", "{\"a\":2}");
    var items := [older, latest];
    MsgRole("user", "{\"grade_details\":5,\"a\":1}", "user");
    MsgRole("user", "{\"a\":2}", "user");
    FilterTwo(older, latest, IsUser);
    FilterTwo(older, latest, IsOther);
    assert map["grade_details" := Num(5.0), "a" := Num(1.0)] - {ScrubbedKey} == map["a" := Num(1.0)];
    ScrubObjectMsg("user", "{\"grade_details\":5,\"a\":1}", map["grade_details" := Num(5.0), "a" := Num(1.0)], loads, dumps);
    CleanedPair(older, latest, loads, dumps);
  }

  function MixedLog(): seq<Message>
  {
    [Msg("assistant", "hi"), Msg("user", "{\"grade_details\":1}"), Msg("developer", "old"), Msg("user", "latest, not json")]
  }

  /** Selection from a four-element sequence, element by element. */
  lemma FilterFour<T>(a: T, b: T, c: T, d: T, p: T -> bool)
    ensures Filtering.Filter([a, b, c, d], p)
      == (if p(a) then [a] else []) + (if p(b) then [b] else []) + (if p(c) then [c] else []) + (if p(d) then [d] else [])
  {
    assert [a, b, c, d][1..] == [b, c, d];
    assert [b, c, d][1..] == [c, d];
    FilterTwo(c, d, p);
    assert Filtering.Filter([b, c, d], p) == (if p(b) then [b] else []) + Filtering.Filter([c, d], p);
  }

  /** The user group of the mixed log: its two user messages, in order. */
  lemma MixedUsers()
    ensures UserMessages(MixedLog()) == [Msg("user", "{\"grade_details\":1}"), Msg("user", "latest, not json")]
  {
    var items := MixedLog();
    MsgRole("assistant", "hi", "user");
    MsgRole("user", "{\"grade_details\":1}", "user");
    MsgRole("developer", "old", "user");
    MsgRole("user", "latest, not json", "user");
    FilterFour(items[0], items[1], items[2], items[3], IsUser);
  }

  /** The other group of the mixed log: the assistant message alone; the developer message is dropped. */
  lemma MixedOthers()
    ensures OtherMessages(MixedLog()) == [Msg("assistant", "hi")]
  {
    var items := MixedLog();
    MsgRole("assistant", "hi", "user");
    MsgRole("assistant", "hi", "developer");
    MsgRole("user", "{\"grade_details\":1}", "user");
    MsgRole("developer", "old", "developer");
    MsgRole("user", "latest, not json", "user");
    FilterFour(items[0], items[1], items[2], items[3], IsOther);
  }

  /**
   * Mixed roles: the assistant message leads, the old developer message is gone, the older user
   * message is scrubbed down to an empty object and the latest (not JSON) is kept as it is.
   */
  lemma MixedRoles(header: string, loads: string -> Option<Json>, dumps: Json -> string)
    requires loads("{\"grade_details\":1}") == Some(Obj(map["grade_details" := Num(1.0)]))
    requires dumps(Obj(map[])) == "{}"
    ensures Compacted(MixedLog(), header, loads, dumps)
      == [Msg("assistant", "hi"), Msg("user", "{}"), Msg("user", "latest, not json"), DeveloperMessage(header)]
  {
    var older, latest := Msg("user", "{\"grade_details\":1}"), Msg("user", "latest, not json");
    MixedUsers();
    MixedOthers();
    assert map["grade_details" := Num(1.0)] - {ScrubbedKey} == map[];
    ScrubObjectMsg("user", "{\"grade_details\":1}", map["grade_details" := Num(1.0)], loads, dumps);
    CleanedPair(older, latest, loads, dumps);
    assert CleanedHistory(UserMessages(MixedLog()), loads, dumps) == [Msg("user", "{}"), latest];
  }
}
