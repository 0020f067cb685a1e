/** The lookup of the answer text in an already-parsed response of the text
    generation service: `candidates[0].content.parts[0].text`, read with cJSON's
    case-sensitive object lookup, array indexing and string test. */
module ResponsePath {
  import opened Wrappers

  /** A parsed JSON value. Object members keep their order and may repeat a key. */
  datatype Json =
    | JNull
    | JBool(b: bool)
    | JNumber
    | JString(s: string)
    | JArray(items: seq<Json>)
    | JObject(members: seq<Member>)

  datatype Member = Member(key: string, value: Json)

  /** i is the position of the first member whose key is `key`. */
  ghost predicate IsFirstKey(ms: seq<Member>, key: string, i: int) {
    0 <= i < |ms| && ms[i].key == key && forall j :: 0 <= j < i ==> ms[j].key != key
  }

  /** The search of an object's members for `key`; the first match wins. */
  function FindMember(ms: seq<Member>, key: string): (r: Option<Json>)
    ensures r.None? <==> forall j :: 0 <= j < |ms| ==> ms[j].key != key
    ensures r.Some? ==> exists i :: IsFirstKey(ms, key, i) && r.value == ms[i].value
  {
    if ms == [] then None
    else if ms[0].key == key then Some(ms[0].value)
    else
      var r := FindMember(ms[1..], key);
      assert forall i | IsFirstKey(ms[1..], key, i) :: IsFirstKey(ms, key, i + 1) && ms[i + 1] == ms[1..][i] by {
        forall i | IsFirstKey(ms[1..], key, i) ensures IsFirstKey(ms, key, i + 1) && ms[i + 1] == ms[1..][i] {
          FirstKeyTail(ms, key, i);
        }
      }
      r
  }

  /** A first match in the tail, after a head that does not match, is a first match
      one place further on. */
  lemma FirstKeyTail(ms: seq<Member>, key: string, i: int)
    requires ms != [] && ms[0].key != key && IsFirstKey(ms[1..], key, i)
    ensures IsFirstKey(ms, key, i + 1) && ms[i + 1] == ms[1..][i]
  {
    forall j | 0 <= j < i + 1 ensures ms[j].key != key {
      if j > 0 {
        assert ms[j] == ms[1..][j - 1];
      }
    }
  }

  /** cJSON_GetObjectItemCaseSensitive: NULL when given NULL or a non-object;
      otherwise the value of the first member named `key`, or NULL when there is none. */
  function GetObjectItem(item: Option<Json>, key: string): (r: Option<Json>)
    ensures item.None? || !item.value.JObject? ==> r.None?
    ensures forall v :: r == Some(v) <==> item.Some? && HasFirst(item.value, key, v)
  {
    if item.Some? && item.value.JObject? then
      var r := FindMember(item.value.members, key);
      assert forall v :: r == Some(v) <==> HasFirst(item.value, key, v) by {
        forall v ensures r == Some(v) <==> HasFirst(item.value, key, v) {
          FindMemberFirst(item.value.members, key, v);
        }
      }
      r
    else None
  }

  /** `cJSON_IsArray(a) ? cJSON_GetArrayItem(a, 0) : NULL`: the first item of a
      non-empty array, and NULL for anything else. */
  function FirstIfArray(item: Option<Json>): (r: Option<Json>)
    ensures r.Some? <==> item.Some? && item.value.JArray? && item.value.items != []
    ensures r.Some? ==> r.value == item.value.items[0]
  {
    if item.Some? && item.value.JArray? && |item.value.items| > 0 then Some(item.value.items[0]) else None
  }

  /** The chain of lookups of ai_module.c:105-112; None when any step is missing or
      of the wrong kind (the "unexpected API response format" path). The answer is t
      exactly when the response has the expected layout with the string t at its end. */
  function Answer(root: Json): (r: Option<string>)
    ensures forall t :: r == Some(t) <==> AnswerAt(root, t)
  {
    var candidates := GetObjectItem(Some(root), "candidates");
    var firstCandidate := FirstIfArray(candidates);
    var content := GetObjectItem(firstCandidate, "content");
    var parts := GetObjectItem(content, "parts");
    var firstPart := FirstIfArray(parts);
    var text := GetObjectItem(firstPart, "text");
    var r := if text.Some? && text.value.JString? then Some(text.value.s) else None;
    assert forall t :: r == Some(t) <==> AnswerAt(root, t) by {
      forall t ensures r == Some(t) <==> AnswerAt(root, t) {
        CandidateLevel(firstCandidate, t);
        if r == Some(t) {
          assert HasFirst(root, "candidates", JArray(candidates.value.items));
        }
        if AnswerAt(root, t) {
          var cands: seq<Json> :| HasFirst(root, "candidates", JArray(cands)) && |cands| > 0 && CandidateAt(cands[0], t);
          assert candidates == Some(JArray(cands));
        }
      }
    }
    r
  }

  /** `obj` is an object whose first member named `key` holds `v`. */
  ghost predicate HasFirst(obj: Json, key: string, v: Json) {
    obj.JObject? && exists i :: IsFirstKey(obj.members, key, i) && obj.members[i].value == v
  }

  /** Declarative form of the response layout, one level at a time: the path exists,
      each object step is taken at the first member with that name and each array
      step at a non-empty array. */
  ghost predicate AnswerAt(root: Json, t: string) {
    exists cands: seq<Json> :: HasFirst(root, "candidates", JArray(cands)) && |cands| > 0 && CandidateAt(cands[0], t)
  }

  ghost predicate CandidateAt(cand: Json, t: string) {
    exists content: Json :: HasFirst(cand, "content", content) && ContentAt(content, t)
  }

  ghost predicate ContentAt(content: Json, t: string) {
    exists parts: seq<Json> :: HasFirst(content, "parts", JArray(parts)) && |parts| > 0 && HasFirst(parts[0], "text", JString(t))
  }

  lemma FirstKeyUnique(ms: seq<Member>, key: string, i: int, j: int)
    requires IsFirstKey(ms, key, i) && IsFirstKey(ms, key, j)
    ensures i == j
  {
  }

  /** The member search finds v exactly when v sits at the first member named key. */
  lemma FindMemberFirst(ms: seq<Member>, key: string, v: Json)
    ensures FindMember(ms, key) == Some(v) <==> exists i :: IsFirstKey(ms, key, i) && ms[i].value == v
  {
    if i :| IsFirstKey(ms, key, i) && ms[i].value == v {
      var r := FindMember(ms, key);
      var i' :| IsFirstKey(ms, key, i') && r.value == ms[i'].value;
      FirstKeyUnique(ms, key, i, i');
    }
  }

  lemma ContentLevel(content: Option<Json>, t: string)
    ensures (var text := GetObjectItem(FirstIfArray(GetObjectItem(content, "parts")), "text");
             text == Some(JString(t))) <==> content.Some? && ContentAt(content.value, t)
  {
    var parts := GetObjectItem(content, "parts");
    var firstPart := FirstIfArray(parts);
    var text := GetObjectItem(firstPart, "text");
    if text == Some(JString(t)) {
      assert HasFirst(content.value, "parts", JArray(parts.value.items));
    }
    if content.Some? && ContentAt(content.value, t) {
      var ps: seq<Json> :| HasFirst(content.value, "parts", JArray(ps)) && |ps| > 0 && HasFirst(ps[0], "text", JString(t));
      assert parts == Some(JArray(ps));
    }
  }

  lemma CandidateLevel(cand: Option<Json>, t: string)
    ensures (var text := GetObjectItem(FirstIfArray(GetObjectItem(GetObjectItem(cand, "content"), "parts")), "text");
             text == Some(JString(t))) <==> cand.Some? && CandidateAt(cand.value, t)
  {
    var content := GetObjectItem(cand, "content");
    ContentLevel(content, t);
    if cand.Some? && CandidateAt(cand.value, t) {
      var ct: Json :| HasFirst(cand.value, "content", ct) && ContentAt(ct, t);
      assert content == Some(ct);
    }
  }

  /** When `candidates` is present but not an array (or is an empty array), no answer
      is found, whatever else the response holds. */
  lemma NoCandidatesArrayNoAnswer(root: Json)
    requires GetObjectItem(Some(root), "candidates").None? ||
             !GetObjectItem(Some(root), "candidates").value.JArray? ||
             GetObjectItem(Some(root), "candidates").value.items == []
    ensures Answer(root) == None
  {
  }
}
