/** The JSON documents the API returns. Objects keep their members in the
    order they were written, so the exact keys of each serialiser can be
    stated. */
module Json {
  import opened Wrappers

  datatype Value =
    | Num(n: int)
    | Str(s: string)
    | Arr(items: seq<Value>)
    | Obj(fields: seq<(string, Value)>)

  /** The member names of an object, in order; a non-object has none. */
  function Keys(v: Value): (ks: seq<string>)
    ensures v.Obj? ==> |ks| == |v.fields|
    ensures v.Obj? ==> forall i :: 0 <= i < |ks| ==> ks[i] == v.fields[i].0
    ensures !v.Obj? ==> ks == []
  {
    if v.Obj? then seq(|v.fields|, i requires 0 <= i < |v.fields| => v.fields[i].0) else []
  }

  /** The value of the first member named `key`; later duplicates are shadowed. */
  function Lookup(fields: seq<(string, Value)>, key: string): (r: Option<Value>)
    ensures r.None? <==> forall i :: 0 <= i < |fields| ==> fields[i].0 != key
    ensures r.Some? ==>
      exists i :: 0 <= i < |fields| && fields[i] == (key, r.value) && forall j :: 0 <= j < i ==> fields[j].0 != key
  {
    if |fields| == 0 then None
    else if fields[0].0 == key then Some(fields[0].1)
    else Lookup(fields[1..], key)
  }

  /** `v[key]` on a JSON object; `None` for a missing key or a non-object. */
  function Get(v: Value, key: string): (r: Option<Value>)
    ensures r.Some? <==> v.Obj? && key in Keys(v)
  {
    if v.Obj? then Lookup(v.fields, key) else None
  }

  /** The elements of the array stored under `key`; empty when there is none. */
  function Items(v: Value, key: string): seq<Value> {
    match Get(v, key)
    case Some(Arr(items)) => items
    case _ => []
  }

  lemma {:induction false} LookupAt(fields: seq<(string, Value)>, i: int)
    requires Distinct(Keys(Obj(fields))) && 0 <= i < |fields|
    ensures Lookup(fields, fields[i].0) == Some(fields[i].1)
  {
    if i > 0 {
      var keys, rest := Keys(Obj(fields)), Keys(Obj(fields[1..]));
      assert keys[0] != keys[i];
      assert forall a :: 0 <= a < |rest| ==> rest[a] == keys[a + 1];
      assert fields[1..][i - 1] == fields[i];
      LookupAt(fields[1..], i - 1);
    }
  }

  /** The object members pairing each key with the value at the same position. */
  function Zip(keys: seq<string>, values: seq<Value>): (fields: seq<(string, Value)>)
    requires |keys| == |values|
    ensures |fields| == |keys|
    ensures forall i :: 0 <= i < |keys| ==> fields[i] == (keys[i], values[i])
  {
    if |keys| == 0 then [] else [(keys[0], values[0])] + Zip(keys[1..], values[1..])
  }

  lemma ZipKeys(keys: seq<string>, values: seq<Value>)
    requires |keys| == |values|
    ensures Keys(Obj(Zip(keys, values))) == keys
  {
  }

  /** In an object built from distinct keys, the key at position `i` finds the value at `i`. */
  lemma ZipMemberAt(keys: seq<string>, values: seq<Value>, i: int)
    requires |keys| == |values| && Distinct(keys) && 0 <= i < |keys|
    ensures Get(Obj(Zip(keys, values)), keys[i]) == Some(values[i])
  {
    var fields := Zip(keys, values);
    ZipKeys(keys, values);
    LookupAt(fields, i);
  }
}
