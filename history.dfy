/**
 * The pure part of the compaction: the role partition, the cleaned user history built by the
 * scrub loop, and the log that the store holds afterwards.
 */
module History {
  import opened JsonValues
  import opened Messages
  import opened Filtering

  /** `[m for m in items if m.get("role") == "user"]` */
  function UserMessages(items: seq<Message>): (r: seq<Message>)
    ensures |r| <= |items|
    ensures forall i :: 0 <= i < |r| ==> IsUser(r[i])
  {
    Filter(items, IsUser)
  }

  /** `[m for m in items if m.get("role") not in ["user", "developer"]]` */
  function OtherMessages(items: seq<Message>): (r: seq<Message>)
    ensures |r| <= |items|
    ensures forall i :: 0 <= i < |r| ==> !IsUser(r[i]) && !IsDeveloper(r[i])
  {
    Filter(items, IsOther)
  }

  /** The messages the compaction drops. */
  function DeveloperMessages(items: seq<Message>): seq<Message>
  {
    Filter(items, IsDeveloper)
  }

  /**
   * The cleaned user history: every user message but the last is scrubbed, the last one is kept
   * as it is.
   */
  function CleanedHistory(users: seq<Message>, loads: string -> Option<Json>, dumps: Json -> string): (r: seq<Message>)
    ensures |r| == |users|
    ensures users != [] ==> r[|r| - 1] == users[|users| - 1]
    decreases |users|
  {
    if |users| <= 1 then users
    else [ScrubMessage(users[0], loads, dumps)] + CleanedHistory(users[1..], loads, dumps)
  }

  /** Every user message before the latest is scrubbed, at its own position. */
  lemma {:induction false} CleanedAt(users: seq<Message>, loads: string -> Option<Json>, dumps: Json -> string, i: nat)
    requires i < |users| - 1
    ensures CleanedHistory(users, loads, dumps)[i] == ScrubMessage(users[i], loads, dumps)
  {
    if i > 0 {
      CleanedAt(users[1..], loads, dumps, i - 1);
      assert users[1..][i - 1] == users[i];
    }
  }

  /**
   * The loop `for i, msg in enumerate(user_msgs)`, appending to `cleaned_user_history` one
   * message at a time.
   */
  method CleanUserHistory(userMsgs: seq<Message>, loads: string -> Option<Json>, dumps: Json -> string)
    returns (cleaned: seq<Message>)
    ensures cleaned == CleanedHistory(userMsgs, loads, dumps)
  {
    cleaned := [];
    for i := 0 to |userMsgs|
      invariant |cleaned| == i
      invariant forall j :: 0 <= j < i ==>
        cleaned[j] == if j == |userMsgs| - 1 then userMsgs[j] else ScrubMessage(userMsgs[j], loads, dumps)
    {
      var msg := userMsgs[i];
      if i == |userMsgs| - 1 {
        // the latest user message is kept intact
        cleaned := cleaned + [msg];
      } else {
        msg := ScrubMessage(msg, loads, dumps);
        cleaned := cleaned + [msg];
      }
    }
    forall j | 0 <= j < |userMsgs| - 1
      ensures cleaned[j] == CleanedHistory(userMsgs, loads, dumps)[j]
    {
      CleanedAt(userMsgs, loads, dumps, j);
    }
  }

  /** The session's log after compaction: other messages, cleaned user history, fresh developer message. */
  function Compacted(items: seq<Message>, devContent: string, loads: string -> Option<Json>, dumps: Json -> string): (r: seq<Message>)
    ensures |r| == |OtherMessages(items)| + |UserMessages(items)| + 1
    ensures r[|r| - 1] == DeveloperMessage(devContent)
  {
    OtherMessages(items) + CleanedHistory(UserMessages(items), loads, dumps) + [DeveloperMessage(devContent)]
  }

  /** Where each part of the compacted log sits. */
  lemma CompactedAt(items: seq<Message>, devContent: string, loads: string -> Option<Json>, dumps: Json -> string)
    ensures var r, o, c := Compacted(items, devContent, loads, dumps), OtherMessages(items), CleanedHistory(UserMessages(items), loads, dumps);
      && |r| == |o| + |c| + 1
      && r[..|o|] == o
      && r[|o|..|o| + |c|] == c
      && r[|r| - 1] == DeveloperMessage(devContent)
  {
  }

  /**
   * The three groups split the input exactly: each message lands in one of them, and only the
   * developer messages are left out of the new log.
   */
  lemma Partition(items: seq<Message>)
    ensures multiset(items) == multiset(UserMessages(items)) + multiset(OtherMessages(items)) + multiset(DeveloperMessages(items))
  {
    var u, o, d := UserMessages(items), OtherMessages(items), DeveloperMessages(items);
    forall m ensures multiset(items)[m] == multiset(u)[m] + multiset(o)[m] + multiset(d)[m] {
      FilterCount(items, IsUser, m);
      FilterCount(items, IsOther, m);
      FilterCount(items, IsDeveloper, m);
    }
  }

  /** Each group keeps the input's relative order: splitting the input splits the group. */
  lemma GroupsKeepOrder(a: seq<Message>, b: seq<Message>)
    ensures UserMessages(a + b) == UserMessages(a) + UserMessages(b)
    ensures OtherMessages(a + b) == OtherMessages(a) + OtherMessages(b)
  {
    FilterAppend(a, b, IsUser);
    FilterAppend(a, b, IsOther);
  }

  /** A message without a role is kept with the other messages. */
  lemma RolelessKept(items: seq<Message>, m: Message)
    requires m in items && RoleKey !in m
    ensures m in OtherMessages(items) && m !in UserMessages(items)
  {
    FilterMembers(items, IsOther, m);
    FilterMembers(items, IsUser, m);
  }

  /** The new log holds exactly one developer message, the fresh one, and it comes last. */
  lemma OnlyFreshDeveloper(items: seq<Message>, devContent: string, loads: string -> Option<Json>, dumps: Json -> string)
    ensures var r := Compacted(items, devContent, loads, dumps);
      && r[|r| - 1] == DeveloperMessage(devContent)
      && forall k :: 0 <= k < |r| ==> (IsDeveloper(r[k]) <==> k == |r| - 1)
  {
    var o, u := OtherMessages(items), UserMessages(items);
    var c := CleanedHistory(u, loads, dumps);
    var r := Compacted(items, devContent, loads, dumps);
    forall k | 0 <= k < |r| - 1 ensures !IsDeveloper(r[k]) {
      if k < |o| {
        assert r[k] == o[k] && o[k] in o;
      } else {
        var j := k - |o|;
        assert r[k] == c[j] && u[j] in u;
        if j < |u| - 1 {
          CleanedAt(u, loads, dumps, j);
        }
      }
    }
  }

  /**
   * The last entry of the user group is the latest user message of the input: the user
   * message after which no user message comes.
   */
  lemma LastUserIsLatest(items: seq<Message>) returns (i: nat)
    requires UserMessages(items) != []
    ensures i < |items| && IsUser(items[i]) && UserMessages(items)[|UserMessages(items)| - 1] == items[i]
    ensures forall j :: i < j < |items| ==> !IsUser(items[j])
  {
    i := FilterLast(items, IsUser);
  }

  /** The latest user message ends the user block of the new log unchanged. */
  lemma LatestUserUnchanged(items: seq<Message>, devContent: string, loads: string -> Option<Json>, dumps: Json -> string)
    requires UserMessages(items) != []
    ensures var u := UserMessages(items);
      Compacted(items, devContent, loads, dumps)[|OtherMessages(items)| + |u| - 1] == u[|u| - 1]
  {
    var u := UserMessages(items);
    CompactedAt(items, devContent, loads, dumps);
    assert Compacted(items, devContent, loads, dumps)[|OtherMessages(items)| + |u| - 1]
        == CleanedHistory(u, loads, dumps)[|u| - 1];
  }

  /**
   * An older user message whose content decodes to an object is rewritten to the re-serialized
   * object without the scrubbed key; every other field of the message is kept.
   */
  lemma OlderObjectScrubbed(items: seq<Message>, devContent: string, loads: string -> Option<Json>, dumps: Json -> string,
                            k: nat, fields: map<string, Json>)
    requires k < |UserMessages(items)| - 1
    requires LoadContent(UserMessages(items)[k], loads) == Parsed(Obj(fields))
    ensures var m, r := UserMessages(items)[k], Compacted(items, devContent, loads, dumps)[|OtherMessages(items)| + k];
      && r == m[ContentKey := Str(dumps(Obj(fields - {ScrubbedKey})))]
      && IsUser(r)
  {
    var u := UserMessages(items);
    CompactedAt(items, devContent, loads, dumps);
    assert Compacted(items, devContent, loads, dumps)[|OtherMessages(items)| + k] == CleanedHistory(u, loads, dumps)[k];
    CleanedAt(u, loads, dumps, k);
  }

  /**
   * When decoding the encoded scrubbed object gives that object back, the rewritten content
   * decodes to an object that has lost the scrubbed key and kept every other key with its value.
   */
  lemma OlderObjectReparses(items: seq<Message>, devContent: string, loads: string -> Option<Json>, dumps: Json -> string,
                            k: nat, fields: map<string, Json>)
    requires k < |UserMessages(items)| - 1
    requires LoadContent(UserMessages(items)[k], loads) == Parsed(Obj(fields))
    requires loads(dumps(Obj(fields - {ScrubbedKey}))) == Some(Obj(fields - {ScrubbedKey}))
    ensures var r := Compacted(items, devContent, loads, dumps)[|OtherMessages(items)| + k];
      && LoadContent(r, loads) == Parsed(Obj(fields - {ScrubbedKey}))
      && ScrubbedKey !in LoadContent(r, loads).value.fields
      && LoadContent(r, loads).value.fields.Keys == fields.Keys - {ScrubbedKey}
      && forall key :: key in fields && key != ScrubbedKey ==> LoadContent(r, loads).value.fields[key] == fields[key]
  {
    OlderObjectScrubbed(items, devContent, loads, dumps, k, fields);
  }

  /**
   * An older user message whose content is missing, not a string, not JSON, or a value on which
   * the key test or the deletion raises TypeError is kept unchanged, at its place.
   */
  lemma OlderFallbackKept(items: seq<Message>, devContent: string, loads: string -> Option<Json>, dumps: Json -> string, k: nat)
    requires k < |UserMessages(items)| - 1
    requires var l := LoadContent(UserMessages(items)[k], loads); !l.Parsed? || ScrubValue(l.value).None?
    ensures Compacted(items, devContent, loads, dumps)[|OtherMessages(items)| + k] == UserMessages(items)[k]
  {
    var u := UserMessages(items);
    var c := CleanedHistory(u, loads, dumps);
    CompactedAt(items, devContent, loads, dumps);
    assert Compacted(items, devContent, loads, dumps)[|OtherMessages(items)| + k] == c[k];
    CleanedAt(u, loads, dumps, k);
  }

  /**
   * Cleaning touches only the content field: each entry of the cleaned history has the keys, the
   * role and every other field of the user message at the same position.
   */
  lemma CleanedKeepsFields(users: seq<Message>, loads: string -> Option<Json>, dumps: Json -> string, j: nat)
    requires j < |users|
    ensures var c := CleanedHistory(users, loads, dumps);
      && c[j].Keys == users[j].Keys
      && IsUser(c[j]) == IsUser(users[j])
      && forall key :: key in users[j] && key != ContentKey ==> c[j][key] == users[j][key]
  {
    var c := CleanedHistory(users, loads, dumps);
    var m := users[j];
    var r := c[j];
    if j < |users| - 1 {
      CleanedAt(users, loads, dumps, j);
      assert r.Keys == m.Keys;
      assert IsUser(r) == IsUser(m);
    } else {
      assert r == m;
    }
  }

  /** A log with only developer messages, or none at all, compacts to the fresh developer message alone. */
  lemma OnlyDevelopersCompactToHeader(items: seq<Message>, devContent: string, loads: string -> Option<Json>, dumps: Json -> string)
    requires forall m :: m in items ==> IsDeveloper(m)
    ensures Compacted(items, devContent, loads, dumps) == [DeveloperMessage(devContent)]
  {
    forall i | 0 <= i < |items| ensures IsDeveloper(items[i]) {
      assert items[i] in items;
    }
    FilterNone(items, IsUser);
    FilterNone(items, IsOther);
  }
}
