/**
 * A JSON document as a tree, as Go's `encoding/json` produces it from Go
 * values. An object keeps its members in the order they are written: for a
 * struct that is the order of the struct's fields.
 */
module Json {
  import opened Wrappers

  datatype Value =
    | JNull
    | JBool(b: bool)
    | JNumber(n: int)
    | JString(s: string)
    | JArray(items: seq<Value>)
    | JObject(members: seq<(string, Value)>)

  /** The keys of an object's members, in order. */
  function Keys(members: seq<(string, Value)>): (ks: seq<string>)
    ensures |ks| == |members|
    ensures forall i :: 0 <= i < |members| ==> ks[i] == members[i].0
  {
    seq(|members|, i requires 0 <= i < |members| => members[i].0)
  }

  /** The value of the first member named `key`, as a decoder that takes
      the first occurrence of a key reads it. */
  function Lookup(members: seq<(string, Value)>, key: string): (r: Option<Value>)
    ensures r.None? <==> key !in Keys(members)
    ensures r.Some? ==> exists i :: 0 <= i < |members| && members[i] == (key, r.value) && key !in Keys(members[..i])
  {
    if members == [] then None
    else if members[0].0 == key then
      assert Keys(members[..0]) == [];
      Some(members[0].1)
    else
      var r := Lookup(members[1..], key);
      if r.Some? then
        var j :| 0 <= j < |members[1..]| && members[1..][j] == (key, r.value) && key !in Keys(members[1..][..j]);
        assert members[1 + j] == (key, r.value);
        assert Keys(members[..1 + j]) == [members[0].0] + Keys(members[1..][..j]);
        r
      else r
  }

  /** The value at `key` of an object, None when the document is not an
      object or has no such member. */
  function Member(v: Value, key: string): Option<Value> {
    if v.JObject? then Lookup(v.members, key) else None
  }

  /** The string a value holds, if it is a string. */
  function AsString(v: Value): Option<string> {
    if v.JString? then Some(v.s) else None
  }

  /** The integer a value holds, if it is a number. */
  function AsInt(v: Value): Option<int> {
    if v.JNumber? then Some(v.n) else None
  }
}
