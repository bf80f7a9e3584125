/** A small JSON value type: the shape of every body that crosses the wire. */
module Json {
  import opened Wrappers

  /** Numbers are kept as mathematical reals; no IEEE rounding is modelled. */
  datatype Json =
    | JNull
    | JBool(b: bool)
    | JNum(n: real)
    | JStr(s: string)
    | JArr(items: seq<Json>)
    | JObj(members: seq<Member>)

  /** One `"key": value` pair of an object, in the order it was written. */
  datatype Member = Member(key: string, value: Json)

  /** The value of the first member named `key`, if any. */
  function Find(members: seq<Member>, key: string): (r: Option<Json>)
    ensures r.Some? <==> exists i :: 0 <= i < |members| && members[i].key == key
    ensures r.Some? ==> exists i :: 0 <= i < |members| && members[i] == Member(key, r.value)
  {
    if |members| == 0 then None
    else if members[0].key == key then Some(members[0].value)
    else
      var rest := Find(members[1..], key);
      assert forall i :: 0 < i < |members| ==> members[i] == members[1..][i - 1];
      rest
  }

  /** How many members are named `key`; serde rejects an object naming a field twice. */
  function Occurrences(members: seq<Member>, key: string): (n: nat)
    ensures n == 0 <==> Find(members, key).None?
    ensures n <= |members|
  {
    if |members| == 0 then 0
    else (if members[0].key == key then 1 else 0) + Occurrences(members[1..], key)
  }

  /** No two members share a key. */
  predicate DistinctKeys(members: seq<Member>) {
    forall i, k :: 0 <= i < k < |members| ==> members[i].key != members[k].key
  }

  lemma {:induction false} DistinctKeysOccurOnce(members: seq<Member>, key: string)
    requires DistinctKeys(members)
    ensures Occurrences(members, key) <= 1
    decreases |members|
  {
    if |members| > 0 {
      var rest := members[1..];
      assert forall i :: 0 <= i < |rest| ==> rest[i] == members[i + 1];
      DistinctKeysOccurOnce(rest, key);
      if members[0].key == key {
        assert Find(rest, key).None?;
      }
    }
  }

  /** With distinct keys, each member is what its key finds. */
  lemma FindDistinct(members: seq<Member>, i: nat)
    requires DistinctKeys(members) && i < |members|
    ensures Find(members, members[i].key) == Some(members[i].value)
  {
    var r := Find(members, members[i].key);
    var k :| 0 <= k < |members| && members[k] == Member(members[i].key, r.value);
  }

  /** The member `key` of an object value; `None` for a non-object or a missing key. */
  function Field(j: Json, key: string): Option<Json> {
    if j.JObj? then Find(j.members, key) else None
  }

  /** The object that has exactly the given two members, in order. */
  function Pair(k1: string, v1: Json, k2: string, v2: Json): Json {
    JObj([Member(k1, v1), Member(k2, v2)])
  }

  lemma PairFields(k1: string, v1: Json, k2: string, v2: Json)
    requires k1 != k2
    ensures Field(Pair(k1, v1, k2, v2), k1) == Some(v1)
    ensures Field(Pair(k1, v1, k2, v2), k2) == Some(v2)
    ensures Occurrences(Pair(k1, v1, k2, v2).members, k1) == 1
    ensures Occurrences(Pair(k1, v1, k2, v2).members, k2) == 1
  {
    var ms := [Member(k1, v1), Member(k2, v2)];
    assert ms[1..] == [Member(k2, v2)];
    assert Find(ms[1..], k2) == Some(v2);
    assert Find(ms, k2) == Find(ms[1..], k2);
    assert ms[1..][1..] == [];
  }

  /** The request body shape shared by every typed call: `{"type": <name>, "params": <fields>}`. */
  function TypedBody(typeName: string, params: Json): (j: Json)
    ensures Field(j, "type") == Some(JStr(typeName))
    ensures Field(j, "params") == Some(params)
    ensures Occurrences(j.members, "type") == 1 && Occurrences(j.members, "params") == 1
  {
    PairFields("type", JStr(typeName), "params", params);
    Pair("type", JStr(typeName), "params", params)
  }

  /** A JSON array of JSON strings. */
  function Strings(xs: seq<string>): (r: Json)
    ensures r.JArr? && |r.items| == |xs|
    ensures forall i :: 0 <= i < |xs| ==> r.items[i] == JStr(xs[i])
  {
    JArr(seq(|xs|, i requires 0 <= i < |xs| => JStr(xs[i])))
  }

  /** Reads back an array whose every item is a string; `None` otherwise. */
  function AsStrings(items: seq<Json>): (r: Option<seq<string>>)
    ensures r.Some? <==> forall i :: 0 <= i < |items| ==> items[i].JStr?
    ensures r.Some? ==> |r.value| == |items| && forall i :: 0 <= i < |items| ==> items[i] == JStr(r.value[i])
  {
    if |items| == 0 then Some([])
    else if !items[0].JStr? then None
    else
      match AsStrings(items[1..])
      case None => None
      case Some(rest) => Some([items[0].s] + rest)
  }

  lemma {:induction false} StringsRoundTrip(xs: seq<string>)
    ensures AsStrings(Strings(xs).items) == Some(xs)
  {
    var r := AsStrings(Strings(xs).items);
    assert r.Some?;
    assert |r.value| == |xs|;
    assert forall i :: 0 <= i < |xs| ==> r.value[i] == xs[i] by {
      forall i | 0 <= i < |xs| ensures r.value[i] == xs[i] {
        assert Strings(xs).items[i] == JStr(r.value[i]);
      }
    }
    assert r.value == xs;
  }
}
