/** The part of cJSON the mappers rely on, as values.
    `Get` is `cJSON_GetObjectItemCaseSensitive`: the first member of an object
    with the key, and nothing for a value that is not an object.
    `Children` is what `cJSON_ArrayForEach` visits: the items of an array, the
    member values of an object, nothing otherwise.
    A number carries its `valueint`. The literals true, false and null have
    no `valuestring`; cJSON's parser gives true the `valueint` 1 and the
    others 0, and the rsync mappers read it as a port.
    The member names the mappers use are the constructors of `Key`; names
    they never look up are `UnknownKey`. */
module Json {
  import opened Wrappers

  datatype Key =
    | LocalRootKey | RemoteSystemsKey | RemoteRootKey | ConnectionTypeKey | ConnectionInfoKey
    | UsernameKey | HostnameKey | IdentityFileKey | PortKey | HostAliasKey
    | CommandTypeKey | CommandWorkspaceKey
    | UnknownKey(name: string)

  datatype Json =
    | JString(str: string)
    | JNumber(num: int)
    | JObject(members: seq<Member>)
    | JArray(items: seq<Json>)
    | JTrue | JFalse | JNull

  datatype Member = Member(key: Key, value: Json)

  /** The first member with key `k`. */
  function GetMember(members: seq<Member>, k: Key): Option<Json> {
    if members == [] then None
    else if members[0].key == k then Some(members[0].value)
    else GetMember(members[1..], k)
  }

  /** The lookup finds nothing exactly when no member has the key, and
      otherwise finds the value of the first member that has it. */
  lemma {:induction false} GetMemberFindsFirst(members: seq<Member>, k: Key)
    ensures GetMember(members, k).None? <==> forall i :: 0 <= i < |members| ==> members[i].key != k
    ensures GetMember(members, k).Some? ==>
      exists i :: 0 <= i < |members| && members[i] == Member(k, GetMember(members, k).value) &&
                  (forall i' :: 0 <= i' < i ==> members[i'].key != k)
  {
    if members != [] && members[0].key != k {
      GetMemberFindsFirst(members[1..], k);
      assert forall i :: 1 <= i < |members| ==> members[i] == members[1..][i - 1];
      if GetMember(members, k).Some? {
        var v := GetMember(members, k).value;
        var j :| 0 <= j < |members[1..]| && members[1..][j] == Member(k, v) &&
                 (forall i' :: 0 <= i' < j ==> members[1..][i'].key != k);
        assert members[j + 1] == Member(k, v);
      }
    } else if members != [] {
      assert members[0] == Member(k, members[0].value);
    }
  }

  /** `cJSON_GetObjectItemCaseSensitive`. */
  function Get(j: Json, k: Key): Option<Json> {
    if j.JObject? then GetMember(j.members, k) else None
  }

  /** `STRING_VAL_EXISTS(entry)` and, when it holds, `entry->valuestring`. */
  function StringValue(entry: Option<Json>): Option<string> {
    if entry.Some? && entry.value.JString? then Some(entry.value.str) else None
  }

  /** `valueint` of a value that is not a string: the number, 1 for true
      (as `parse_value` sets it), 0 for everything else. */
  function ValueInt(j: Json): int {
    match j
    case JNumber(n) => n
    case JTrue => 1
    case _ => 0
  }

  /** The values `cJSON_ArrayForEach` visits, in order. */
  function Children(j: Json): seq<Json> {
    match j
    case JArray(items) => items
    case JObject(members) => seq(|members|, i requires 0 <= i < |members| => members[i].value)
    case _ => []
  }

  /** A member with a string value when the C field is non-NULL, none when
      it is NULL. */
  function OptionalString(k: Key, s: Option<string>): seq<Member> {
    if s.Some? then [Member(k, JString(s.value))] else []
  }

  /** Looking a key up in two member lists put together: the first list wins. */
  lemma {:induction false} GetMemberConcat(a: seq<Member>, b: seq<Member>, k: Key)
    ensures GetMember(a + b, k) == if GetMember(a, k).Some? then GetMember(a, k) else GetMember(b, k)
  {
    if a == [] {
      assert a + b == b;
    } else {
      assert (a + b)[1..] == a[1..] + b;
      GetMemberConcat(a[1..], b, k);
    }
  }

  /** Lookups in an object of two or three members with distinct keys. */
  lemma GetMemberOfSmall(m1: Member, m2: Member, m3: Member, k: Key)
    ensures GetMember([m1, m2], k) ==
      if m1.key == k then Some(m1.value) else if m2.key == k then Some(m2.value) else None
    ensures GetMember([m1, m2, m3], k) ==
      if m1.key == k then Some(m1.value) else if m2.key == k then Some(m2.value)
      else if m3.key == k then Some(m3.value) else None
  {
    assert [m1, m2][1..] == [m2];
    assert [m1, m2, m3][1..] == [m2, m3];
    assert [m2, m3][1..] == [m3];
    assert GetMember([m3], k) == if m3.key == k then Some(m3.value) else None;
    assert GetMember([m2], k) == if m2.key == k then Some(m2.value) else None;
    assert GetMember([m2, m3], k) ==
      if m2.key == k then Some(m2.value) else if m3.key == k then Some(m3.value) else None;
  }

  /** An optional string member is found under its own key with its value
      (absent when the field is NULL) and hides no other key. */
  lemma GetOptionalString(k: Key, s: Option<string>, k2: Key)
    ensures StringValue(GetMember(OptionalString(k, s), k)) == s
    ensures k2 != k ==> GetMember(OptionalString(k, s), k2) == None
  {
  }
}
