// What Python code does with a decoded JSON value (a `dict`, `list`, `str`,
// `int`, `bool` or `None`): subscripting, `in`, `get`, iteration, slicing and
// truthiness, each with the exception Python raises when the value has the
// wrong type. Dicts decoded by `json.loads` hold each key once, at the
// position of its first occurrence, bound to its last value.
module PyJson {
  import opened Wrappers
  import opened Strings
  import opened Json

  /** The exceptions raised while handling decoded JSON and corpus files. */
  datatype PyError =
    | TypeError
    | KeyError(key: string)
    | AttributeError
    | JsonDecodeError
    | FileNotFound
    | ValueError

  /** `j[key]` with a string key: a dict's value, KeyError for a missing key, TypeError for any other value. */
  function Index(j: Json, key: string): (r: Result<Json, PyError>)
    ensures r.Ok? <==> Get(j, key).Some?
    ensures r.Ok? ==> r.value == Get(j, key).value
    ensures r.Err? ==> r.error == if j.JObject? then KeyError(key) else TypeError
  {
    if !j.JObject? then Err(TypeError)
    else match Lookup(j.members, key)
      case None => Err(KeyError(key))
      case Some(v) => Ok(v)
  }

  /** `j.get(key, default)`: a dict's value or the default; other values have no `get`. */
  function GetOr(j: Json, key: string, default: Json): (r: Result<Json, PyError>)
    ensures r.Err? <==> !j.JObject?
    ensures r.Err? ==> r.error == AttributeError
    ensures j.JObject? ==> r.value == match Lookup(j.members, key) case Some(v) => v case None => default
  {
    if !j.JObject? then Err(AttributeError)
    else match Lookup(j.members, key)
      case None => Ok(default)
      case Some(v) => Ok(v)
  }

  /** `key in j` for a string key: a dict's keys, a list's elements, a string's substrings; TypeError otherwise. */
  function In(key: string, j: Json): (r: Result<bool, PyError>)
    ensures r.Err? <==> !(j.JObject? || j.JArray? || j.JString?)
    ensures j.JObject? ==> r == Ok(Lookup(j.members, key).Some?)
    ensures j.JArray? ==> r == Ok(JString(key) in j.items)
    ensures j.JString? ==> r == Ok(Contains(j.s, key))
  {
    match j
    case JObject(ms) => Ok(Lookup(ms, key).Some?)
    case JArray(items) => Ok(JString(key) in items)
    case JString(s) => Ok(Contains(s, key))
    case _ => Err(TypeError)
  }

  /** The one-character strings of `s`, as iterating a `str` yields them. */
  function Chars(s: string): (r: seq<Json>)
    ensures |r| == |s| && forall i | 0 <= i < |s| :: r[i] == JString([s[i]])
    decreases |s|
  {
    if |s| == 0 then [] else Chars(s[..|s| - 1]) + [JString([s[|s| - 1]])]
  }

  /** The keys of a dict, as iterating it yields them. */
  function KeyStrings(ks: seq<string>): (r: seq<Json>)
    ensures |r| == |ks| && forall i | 0 <= i < |ks| :: r[i] == JString(ks[i])
    decreases |ks|
  {
    if |ks| == 0 then [] else KeyStrings(ks[..|ks| - 1]) + [JString(ks[|ks| - 1])]
  }

  /**
   * What `for x in j` and `list.extend(j)` take from `j`: the elements of a
   * list, the keys of a dict, the characters of a string; anything else is
   * not iterable.
   */
  function Iterate(j: Json): (r: Result<seq<Json>, PyError>)
    ensures r.Err? <==> !(j.JArray? || j.JObject? || j.JString?)
    ensures r.Err? ==> r.error == TypeError
    ensures j.JArray? ==> r.value == j.items
    ensures j.JObject? ==> r.value == KeyStrings(Keys(j.members))
    ensures j.JString? ==> r.value == Chars(j.s)
  {
    match j
    case JArray(items) => Ok(items)
    case JObject(ms) => Ok(KeyStrings(Keys(ms)))
    case JString(s) => Ok(Chars(s))
    case _ => Err(TypeError)
  }

  /** Each binding of `ks`, every one of which is a key of `members`, with its last value. */
  function ItemsOf(members: seq<(string, Json)>, ks: seq<string>): (r: seq<(string, Json)>)
    requires forall k | k in ks :: Lookup(members, k).Some?
    ensures |r| == |ks|
    ensures forall i | 0 <= i < |ks| :: r[i].0 == ks[i] && Lookup(members, ks[i]) == Some(r[i].1)
    decreases |ks|
  {
    if |ks| == 0 then []
    else
      var k := ks[|ks| - 1];
      ItemsOf(members, ks[..|ks| - 1]) + [(k, Lookup(members, k).value)]
  }

  /**
   * `d.items()` of a decoded dict: each distinct key once, in the order of
   * its first occurrence, with the value bound to it last.
   */
  function Items(members: seq<(string, Json)>): (r: seq<(string, Json)>)
    ensures |r| == |Keys(members)|
    ensures forall i | 0 <= i < |r| :: r[i].0 == Keys(members)[i] && Lookup(members, r[i].0) == Some(r[i].1)
  {
    var ks := Keys(members);
    assert forall k | k in ks :: Lookup(members, k).Some? by {
      forall k | k in ks
        ensures Lookup(members, k).Some?
      {
        var i :| 0 <= i < |members| && members[i].0 == k;
      }
    }
    ItemsOf(members, ks)
  }

  /** Looking a key up among a dict's items finds what looking it up in the dict does. */
  lemma ItemsLookup(members: seq<(string, Json)>, key: string)
    ensures Lookup(Items(members), key) == Lookup(members, key)
  {
    var items, ks := Items(members), Keys(members);
    if key in ks {
      var i :| 0 <= i < |ks| && ks[i] == key;
      LookupUnique(items, i);
    } else {
      assert forall i | 0 <= i < |items| :: items[i].0 != key;
    }
  }

  /** A dict's items bind each key once. */
  lemma ItemsDistinct(members: seq<(string, Json)>)
    ensures forall i, j | 0 <= i < j < |Items(members)| :: Items(members)[i].0 != Items(members)[j].0
  {
  }

  /** Python's `==` against the integer `n`: `True` and `False` compare as 1 and 0. */
  predicate EqualsInt(j: Json, n: int)
  {
    j == JInt(n) || (j.JBool? && (if j.b then 1 else 0) == n)
  }

  /** Python's `int` view of a value that arithmetic accepts (an int or a bool). */
  function AsInt(j: Json): (r: Option<int>)
    ensures r.Some? <==> j.JInt? || j.JBool?
    ensures r.Some? ==> EqualsInt(j, r.value)
  {
    match j
    case JInt(i) => Some(i)
    case JBool(b) => Some(if b then 1 else 0)
    case _ => None
  }
}
