/** The in-memory JSON value the server list is read into (`serde_json::Value`). */
module Json {
  import opened Wrappers

  /**
   * A JSON value. An object is the sequence of its members in the iteration
   * order of `serde_json::Map`; numbers keep their text, since the model never
   * interprets them.
   */
  datatype Value =
    | Null
    | Bool(b: bool)
    | Number(text: string)
    | String(str: string)
    | Array(items: seq<Value>)
    | Object(members: seq<(string, Value)>)

  /** A `serde_json::Map` never holds a key twice. */
  predicate DistinctKeys(members: seq<(string, Value)>) {
    forall i, j :: 0 <= i < j < |members| ==> members[i].0 != members[j].0
  }

  /** The value stored under `key` (`Map::get`). */
  function Get(members: seq<(string, Value)>, key: string): (r: Option<Value>)
    ensures r.None? <==> forall i :: 0 <= i < |members| ==> members[i].0 != key
    ensures r.Some? ==> exists i :: 0 <= i < |members| && members[i] == (key, r.value)
  {
    if |members| == 0 then None
    else if members[0].0 == key then Some(members[0].1)
    else Get(members[1..], key)
  }

  /** The members other than those under `key` (`Map::remove`, result discarded). */
  function Remove(members: seq<(string, Value)>, key: string): (r: seq<(string, Value)>)
    ensures forall i :: 0 <= i < |r| ==> r[i].0 != key
    ensures forall m :: m in r <==> m in members && m.0 != key
    ensures DistinctKeys(members) ==> DistinctKeys(r)
  {
    if |members| == 0 then []
    else if members[0].0 == key then Remove(members[1..], key)
    else [members[0]] + Remove(members[1..], key)
  }
}
