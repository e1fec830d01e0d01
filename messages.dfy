/** Session messages and the per-message scrub of older user turns. */
module Messages {
  import opened JsonValues

  /** A stored message is a dictionary from field names to JSON values. */
  type Message = map<string, Json>

  const RoleKey := "role"
  const ContentKey := "content"
  /** The field removed from the content of older user messages. */
  const ScrubbedKey := "grade_details"

  /** `m.get("role") == role`: a missing role or a non-string role never matches. */
  predicate HasRole(m: Message, role: string)
    ensures HasRole(m, role) ==> RoleKey in m
    ensures RoleKey in m && !m[RoleKey].Str? ==> !HasRole(m, role)
  {
    RoleKey in m && m[RoleKey] == Str(role)
  }

  predicate IsUser(m: Message) { HasRole(m, "user") }

  predicate IsDeveloper(m: Message) { HasRole(m, "developer") }

  /**
   * `m.get("role") not in ["user", "developer"]`, which holds for a message without a role.
   * Every message passes exactly one of the three role tests.
   */
  predicate IsOther(m: Message)
    ensures RoleKey !in m ==> IsOther(m)
    ensures IsUser(m) || IsDeveloper(m) || IsOther(m)
    ensures !(IsUser(m) && IsDeveloper(m)) && !(IsUser(m) && IsOther(m)) && !(IsDeveloper(m) && IsOther(m))
  {
    !IsUser(m) && !IsDeveloper(m)
  }

  /** The fresh header message `{"role": "developer", "content": content}`. */
  function DeveloperMessage(content: string): (m: Message)
    ensures IsDeveloper(m) && !IsUser(m)
    ensures m.Keys == {RoleKey, ContentKey} && m[ContentKey] == Str(content)
  {
    map[RoleKey := Str("developer"), ContentKey := Str(content)]
  }

  /** Python's `t in s` on strings: `t` occurs in `s` as a contiguous substring. */
  predicate HasSubstring(s: string, t: string)
    decreases |s|
  {
    |t| <= |s| && (s[..|t|] == t || (|s| > 0 && HasSubstring(s[1..], t)))
  }

  /** `t` occurs in `s` starting at index `i`. */
  predicate OccursAt(s: string, t: string, i: int)
  {
    0 <= i <= |s| - |t| && s[i..i + |t|] == t
  }

  /** The substring test agrees with its definition by position: `t` occurs at some index of `s`. */
  lemma {:induction false} HasSubstringOccurs(s: string, t: string)
    ensures HasSubstring(s, t) <==> exists i :: OccursAt(s, t, i)
    decreases |s|
  {
    if |t| <= |s| && s[..|t|] != t {
      assert |s| > 0;
      HasSubstringOccurs(s[1..], t);
      assert !OccursAt(s, t, 0);
      forall i | OccursAt(s[1..], t, i) ensures OccursAt(s, t, i + 1) {
        assert s[1..][i..i + |t|] == s[i + 1..i + 1 + |t|];
      }
      forall i | OccursAt(s, t, i) ensures OccursAt(s[1..], t, i - 1) {
        assert s[1..][i - 1..i - 1 + |t|] == s[i..i + |t|];
      }
    } else if |t| <= |s| {
      assert OccursAt(s, t, 0);
    }
  }

  /**
   * The outcome of `json.loads(msg["content"])`: a decoded value, or the exception it raises
   * (KeyError for a missing content field, TypeError for content that is not a string,
   * JSONDecodeError for text that is not JSON).
   */
  datatype Loaded = Parsed(value: Json) | MissingContent | NotText | Malformed

  function LoadContent(m: Message, loads: string -> Option<Json>): (r: Loaded)
    ensures r.MissingContent? <==> ContentKey !in m
    ensures r.NotText? <==> ContentKey in m && !m[ContentKey].Str?
    ensures r.Malformed? <==> ContentKey in m && m[ContentKey].Str? && loads(m[ContentKey].s).None?
    ensures r.Parsed? ==> ContentKey in m && m[ContentKey].Str? && loads(m[ContentKey].s) == Some(r.value)
  {
    if ContentKey !in m then MissingContent
    else match m[ContentKey]
      case Str(s) => (match loads(s) case Some(j) => Parsed(j) case None => Malformed)
      case _ => NotText
  }

  /**
   * `if "grade_details" in content_data: del content_data["grade_details"]` on a decoded value.
   * None stands for the TypeError that `in` raises on a number, a bool or null, and that `del`
   * raises on a list or a string that contains the key.
   */
  function ScrubValue(j: Json): (r: Option<Json>)
    ensures j.Obj? ==> r.Some? && r.value.Obj? && ScrubbedKey !in r.value.fields
    ensures j.Obj? ==> r.value.fields.Keys == j.fields.Keys - {ScrubbedKey}
    ensures j.Obj? ==> forall k :: k in r.value.fields ==> r.value.fields[k] == j.fields[k]
    ensures !j.Obj? ==> r == None || r == Some(j)
    ensures j.Null? || j.Bool? || j.Num? ==> r == None
    ensures j.Arr? ==> (r == None <==> Str(ScrubbedKey) in j.items)
    ensures j.Str? ==> (r == None <==> HasSubstring(j.s, ScrubbedKey))
  {
    match j
    case Obj(fields) => Some(Obj(fields - {ScrubbedKey}))
    case Arr(items) => if Str(ScrubbedKey) in items then None else Some(j)
    case Str(s) => if HasSubstring(s, ScrubbedKey) then None else Some(j)
    case _ => None
  }

  /**
   * The try/except body applied to one older user message: on success the content becomes the
   * re-serialized scrubbed value; on any of the three caught exceptions the message is kept as is.
   */
  function ScrubMessage(m: Message, loads: string -> Option<Json>, dumps: Json -> string): (r: Message)
    ensures r.Keys == m.Keys
    ensures forall k :: k in m && k != ContentKey ==> r[k] == m[k]
    ensures IsUser(r) == IsUser(m) && IsDeveloper(r) == IsDeveloper(m)
    ensures LoadContent(m, loads).Parsed? && LoadContent(m, loads).value.Obj? ==>
      r[ContentKey] == Str(dumps(Obj(LoadContent(m, loads).value.fields - {ScrubbedKey})))
    ensures LoadContent(m, loads).Parsed? && !LoadContent(m, loads).value.Obj? && ScrubValue(LoadContent(m, loads).value).Some? ==>
      r[ContentKey] == Str(dumps(LoadContent(m, loads).value))
    ensures !LoadContent(m, loads).Parsed? ==> r == m
    ensures LoadContent(m, loads).Parsed? && ScrubValue(LoadContent(m, loads).value).None? ==> r == m
  {
    match LoadContent(m, loads)
    case Parsed(j) =>
      (match ScrubValue(j)
       case Some(cleaned) => m[ContentKey := Str(dumps(cleaned))]
       case None => m)
    case _ => m
  }
}
