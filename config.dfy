/**
 * The part of Apache Commons `Configuration` the wrapper reads: `getString(key)`
 * and `getKeys(prefix)`. A configuration is modelled as its (key, value)
 * entries in enumeration order.
 */
module Config {
  import opened Wrappers

  type Configuration = seq<(string, string)>

  /** `getString(key)`: the value of the first entry with that key, or `null` when there is none. */
  function GetString(c: Configuration, key: string): (r: Option<string>)
    ensures r.None? <==> forall i :: 0 <= i < |c| ==> c[i].0 != key
    ensures r.Some? ==> exists i :: 0 <= i < |c| && c[i] == (key, r.value) && forall j :: 0 <= j < i ==> c[j].0 != key
  {
    if c == [] then None
    else if c[0].0 == key then Some(c[0].1)
    else
      var r := GetString(c[1..], key);
      assert forall i :: 1 <= i < |c| ==> c[i] == c[1..][i - 1];
      r
  }

  /** A key is enumerated by `getKeys(prefix)` when it is the prefix itself or lies below it. */
  predicate UnderPrefix(key: string, prefix: string)
  {
    key == prefix || prefix + "." <= key
  }

  /** `getKeys(prefix)`: the keys at or below `prefix`, in enumeration order. */
  function GetKeys(c: Configuration, prefix: string): (r: seq<string>)
    ensures forall k :: k in r ==> UnderPrefix(k, prefix) && GetString(c, k).Some?
    ensures forall i :: 0 <= i < |c| && UnderPrefix(c[i].0, prefix) ==> c[i].0 in r
  {
    if c == [] then []
    else
      var rest := GetKeys(c[1..], prefix);
      assert forall i :: 1 <= i < |c| ==> c[i] == c[1..][i - 1];
      (if UnderPrefix(c[0].0, prefix) then [c[0].0] else []) + rest
  }
}
