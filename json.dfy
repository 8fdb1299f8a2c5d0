/**
 * An abstract JSON value: what `req.json()`, `JSON.parse` and the request
 * bodies the client sends look like before a schema reads them. Objects are
 * lists of key/value pairs in insertion order; a key's value is that of its
 * last occurrence, as `JSON.parse` keeps it.
 */
module Json {
  import opened Wrappers

  datatype Json =
    | JNull
    | JBool(b: bool)
    | JNumber(n: real)
    | JString(s: string)
    | JArray(items: seq<Json>)
    | JObject(fields: seq<(string, Json)>)

  /** Property lookup: None stands for `undefined`. */
  function Get(fields: seq<(string, Json)>, key: string): Option<Json> {
    if fields == [] then None
    else if fields[|fields| - 1].0 == key then Some(fields[|fields| - 1].1)
    else Get(fields[..|fields| - 1], key)
  }

  /** The value of a key that occurs once is the value stored with it. */
  lemma {:induction false} GetAt(fields: seq<(string, Json)>, i: nat)
    requires i < |fields|
    requires forall j :: 0 <= j < |fields| && j != i ==> fields[j].0 != fields[i].0
    ensures Get(fields, fields[i].0) == Some(fields[i].1)
  {
    // the last occurrence wins, and no later key repeats this one
    if i < |fields| - 1 {
      var init := fields[..|fields| - 1];
      assert init[i] == fields[i];
      GetAt(init, i);
    }
  }

  lemma {:induction false} GetAbsent(fields: seq<(string, Json)>, key: string)
    requires forall j :: 0 <= j < |fields| ==> fields[j].0 != key
    ensures Get(fields, key) == None
  {
    if fields != [] {
      GetAbsent(fields[..|fields| - 1], key);
    }
  }

  /** A property added at the end changes no other key's value. */
  lemma GetAppendOther(fields: seq<(string, Json)>, k: string, v: Json, key: string)
    requires key != k
    ensures Get(fields + [(k, v)], key) == Get(fields, key)
  {
    assert (fields + [(k, v)])[..|fields|] == fields;
  }

  function JStrings(xs: seq<string>): (r: seq<Json>)
    ensures |r| == |xs|
    ensures forall i :: 0 <= i < |xs| ==> r[i] == JString(xs[i])
  {
    if xs == [] then [] else [JString(xs[0])] + JStrings(xs[1..])
  }
}
