/** The `TreeMap<String, List<V>>` the first pass fills: keys kept in
    `String.compareTo` order, each mapped to a non-empty list that grows at
    its end. */
module FieldMaps {
  import opened Strings

  datatype FieldMap<V> = FieldMap(keys: seq<string>, groups: map<string, seq<V>>)

  predicate StrictlySorted(keys: seq<string>) {
    forall i, j :: 0 <= i < j < |keys| ==> Less(keys[i], keys[j])
  }

  /** The keys list is the map's key set in ascending order, and no list is empty. */
  predicate Valid<V>(f: FieldMap<V>) {
    && StrictlySorted(f.keys)
    && (forall k :: k in f.keys ==> k in f.groups)
    && (forall k :: k in f.groups ==> k in f.keys)
    && (forall k :: k in f.groups ==> |f.groups[k]| > 0)
  }

  function Empty<V>(): (f: FieldMap<V>)
    ensures Valid(f) && |f.groups| == 0
  {
    FieldMap([], map[])
  }

  lemma SortedTail(keys: seq<string>)
    requires |keys| > 0 && StrictlySorted(keys)
    ensures StrictlySorted(keys[1..])
  {
    forall i, j | 0 <= i < j < |keys[1..]|
      ensures Less(keys[1..][i], keys[1..][j])
    {
      assert keys[1..][i] == keys[i + 1] && keys[1..][j] == keys[j + 1];
    }
  }

  lemma SortedCons(x: string, keys: seq<string>)
    requires StrictlySorted(keys)
    requires forall k :: k in keys ==> Less(x, k)
    ensures StrictlySorted([x] + keys)
  {
    var r := [x] + keys;
    forall i, j | 0 <= i < j < |r|
      ensures Less(r[i], r[j])
    {
      if i == 0 {
        assert r[j] == keys[j - 1];
      } else {
        assert r[i] == keys[i - 1] && r[j] == keys[j - 1];
      }
    }
  }

  /** Places a new key at its position in ascending order. */
  function Insert(keys: seq<string>, k: string): (r: seq<string>)
    requires StrictlySorted(keys)
    requires k !in keys
    ensures StrictlySorted(r)
    ensures forall x :: x in r <==> x in keys || x == k
    decreases |keys|
  {
    if |keys| == 0 then [k]
    else if Less(k, keys[0]) then
      InsertFrontSorted(keys, k);
      [k] + keys
    else
      SortedTail(keys);
      var rest := Insert(keys[1..], k);
      InsertBehindSorted(keys, k, rest);
      [keys[0]] + rest
  }

  lemma InsertFrontSorted(keys: seq<string>, k: string)
    requires |keys| > 0 && StrictlySorted(keys)
    requires Less(k, keys[0])
    ensures StrictlySorted([k] + keys)
  {
    forall x | x in keys
      ensures Less(k, x)
    {
      if x != keys[0] {
        var j :| 0 <= j < |keys| && keys[j] == x;
        LessTransitive(k, keys[0], x);
      }
    }
    SortedCons(k, keys);
  }

  lemma InsertBehindSorted(keys: seq<string>, k: string, rest: seq<string>)
    requires |keys| > 0 && StrictlySorted(keys)
    requires k !in keys && !Less(k, keys[0])
    requires StrictlySorted(rest)
    requires forall x :: x in rest <==> x in keys[1..] || x == k
    ensures StrictlySorted([keys[0]] + rest)
  {
    LessTotal(k, keys[0]);
    forall x | x in rest
      ensures Less(keys[0], x)
    {
      if x != k {
        var j :| 0 <= j < |keys[1..]| && keys[1..][j] == x;
        assert keys[j + 1] == x;
      }
    }
    SortedCons(keys[0], rest);
  }

  /** `list = map.get(k)` (or a new list), `list.add(v)`, `map.put(k, list)`. */
  function Append<V>(f: FieldMap<V>, k: string, v: V): (r: FieldMap<V>)
    requires Valid(f)
    ensures Valid(r)
    ensures r.groups.Keys == f.groups.Keys + {k}
    ensures k in f.groups ==> r.groups[k] == f.groups[k] + [v]
    ensures k !in f.groups ==> r.groups[k] == [v]
    ensures forall x :: x in f.groups && x != k ==> r.groups[x] == f.groups[x]
  {
    if k in f.groups then FieldMap(f.keys, f.groups[k := f.groups[k] + [v]])
    else FieldMap(Insert(f.keys, k), f.groups[k := [v]])
  }
}
