// A small JSON data model shared by the Java daemon (Jackson trees) and the
// Python client (`json.loads` results): objects keep their members in text
// order, duplicate keys included, and a lookup sees the last binding, as both
// Jackson's tree reader and Python's `dict` do. Numbers are integers only.
module Json {
  import opened Wrappers
  import opened Decimal

  datatype Json =
    | JNull
    | JBool(b: bool)
    | JInt(i: int)
    | JString(s: string)
    | JArray(items: seq<Json>)
    | JObject(members: seq<(string, Json)>)

  /** The value bound last to `key` among `members`. */
  function Lookup(members: seq<(string, Json)>, key: string): (r: Option<Json>)
    ensures r.None? <==> forall i :: 0 <= i < |members| ==> members[i].0 != key
    ensures r.Some? ==> exists i :: 0 <= i < |members| && members[i] == (key, r.value) &&
                                    forall j :: i < j < |members| ==> members[j].0 != key
    decreases |members|
  {
    if |members| == 0 then None
    else if members[|members| - 1].0 == key then Some(members[|members| - 1].1)
    else
      var r := Lookup(members[..|members| - 1], key);
      assert forall i :: 0 <= i < |members| - 1 ==> members[..|members| - 1][i] == members[i];
      r
  }

  /** Looking up after one more binding. */
  lemma LookupSnoc(members: seq<(string, Json)>, k: string, v: Json, key: string)
    ensures Lookup(members + [(k, v)], key) == if key == k then Some(v) else Lookup(members, key)
  {
    assert (members + [(k, v)])[..|members|] == members;
  }

  /** The keys after one more binding: a new key goes at the end. */
  lemma KeysSnoc(members: seq<(string, Json)>, kv: (string, Json))
    ensures Keys(members + [kv]) == if kv.0 in Keys(members) then Keys(members) else Keys(members) + [kv.0]
  {
    assert (members + [kv])[..|members|] == members;
  }

  /** A key bound once is looked up to its one value. */
  lemma LookupUnique(members: seq<(string, Json)>, i: nat)
    requires i < |members|
    requires forall j :: 0 <= j < |members| && j != i ==> members[j].0 != members[i].0
    ensures Lookup(members, members[i].0) == Some(members[i].1)
  {
  }

  /** Python's `d.get(key)` / Jackson's `get(key)` on an object; None for any other value. */
  function Get(j: Json, key: string): Option<Json>
  {
    if j.JObject? then Lookup(j.members, key) else None
  }

  /** The distinct keys of an object, in the order of their first appearance. */
  function Keys(members: seq<(string, Json)>): (ks: seq<string>)
    ensures forall i, j :: 0 <= i < j < |ks| ==> ks[i] != ks[j]
    ensures forall k :: k in ks <==> exists i :: 0 <= i < |members| && members[i].0 == k
    decreases |members|
  {
    if |members| == 0 then []
    else
      var ks := Keys(members[..|members| - 1]);
      assert forall i :: 0 <= i < |members| - 1 ==> members[..|members| - 1][i] == members[i];
      if members[|members| - 1].0 in ks then ks else ks + [members[|members| - 1].0]
  }

  /**
   * What iterating a tree node yields (`JsonNode.forEach`): the elements of
   * an array, the values of an object (one per distinct key, in first-key
   * order, each the last value bound), and nothing for any other node.
   */
  function Elements(j: Json): (r: seq<Json>)
    ensures j.JArray? ==> r == j.items
    ensures j.JObject? ==> |r| == |Keys(j.members)|
    ensures j.JObject? ==> forall i :: 0 <= i < |r| ==> Lookup(j.members, Keys(j.members)[i]) == Some(r[i])
    ensures !j.JArray? && !j.JObject? ==> r == []
  {
    match j
    case JArray(items) => items
    case JObject(members) =>
      var ks := Keys(members);
      assert forall i :: 0 <= i < |ks| ==> Lookup(members, ks[i]).Some? by {
        forall i | 0 <= i < |ks| ensures Lookup(members, ks[i]).Some? {
          assert ks[i] in ks;
        }
      }
      seq(|ks|, i requires 0 <= i < |ks| => Lookup(members, ks[i]).value)
    case _ => []
  }

  /** A tree node or Jackson's missing node (what `path` returns for an absent member). */
  datatype Node = Missing | Present(value: Json)

  /** `node.path(key)`: the member of an object, or the missing node. */
  function Path(j: Json, key: string): (n: Node)
    ensures n.Present? <==> Get(j, key).Some?
    ensures n.Present? ==> n.value == Get(j, key).value
  {
    match Get(j, key)
    case None => Missing
    case Some(v) => Present(v)
  }

  /**
   * Jackson's `asText()`: the text of a string, the decimal form of a
   * number, "true"/"false", "null" for a JSON null, and "" for containers
   * and the missing node.
   */
  function AsText(n: Node): (t: string)
    ensures n.Missing? ==> t == ""
    ensures n.Present? && n.value.JString? ==> t == n.value.s
    ensures n.Present? && n.value.JNull? ==> t == "null"
    ensures n.Present? && (n.value.JArray? || n.value.JObject?) ==> t == ""
  {
    match n
    case Missing => ""
    case Present(j) =>
      match j
      case JNull => "null"
      case JBool(b) => if b then "true" else "false"
      case JInt(i) => IntToDecimal(i)
      case JString(s) => s
      case JArray(_) => ""
      case JObject(_) => ""
  }

  /** Python truthiness of a decoded value. */
  predicate Truthy(j: Json)
  {
    match j
    case JNull => false
    case JBool(b) => b
    case JInt(i) => i != 0
    case JString(s) => s != ""
    case JArray(items) => items != []
    case JObject(members) => members != []
  }

  /** Python's `v == 0` for a decoded value: `0` and `False` both compare equal to `0`. */
  predicate EqualsZero(j: Json)
  {
    j == JInt(0) || j == JBool(false)
  }

  /** Python's `x or y`: `x` when it is truthy, else `y`. */
  function Or(x: Json, y: Json): (r: Json)
    ensures Truthy(x) ==> r == x
    ensures !Truthy(x) ==> r == y
  {
    if Truthy(x) then x else y
  }

  /** Python's `d.get(key)` where a missing key gives `None`. */
  function GetOrNull(j: Json, key: string): (r: Json)
    ensures Get(j, key).Some? ==> r == Get(j, key).value
    ensures Get(j, key).None? ==> r == JNull
  {
    match Get(j, key)
    case None => JNull
    case Some(v) => v
  }
}
