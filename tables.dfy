/** Query results over tables held as sequences in primary-key order. */
module Tables {
  /** The positions below `n` satisfying `p`, in increasing order: a
      query's result in primary-key order. */
  function Filter(n: nat, p: nat -> bool): (r: seq<nat>)
    ensures forall j :: 0 <= j < |r| ==> r[j] < n && p(r[j])
    ensures forall k :: 0 <= k < n && p(k) ==> k in r
    ensures forall j, l :: 0 <= j < l < |r| ==> r[j] < r[l]
  {
    if n == 0 then []
    else if p(n - 1) then Filter(n - 1, p) + [n - 1]
    else Filter(n - 1, p)
  }

  /** The elements of `s` satisfying `p`, in order. */
  function Keep(s: seq<nat>, p: nat -> bool): (r: seq<nat>)
    ensures forall j :: 0 <= j < |r| ==> r[j] in s && p(r[j])
    ensures forall j :: 0 <= j < |s| && p(s[j]) ==> s[j] in r
    ensures |r| <= |s|
  {
    if s == [] then []
    else (if p(s[0]) then [s[0]] else []) + Keep(s[1..], p)
  }

  /** A Python dict: its keys in insertion order and its entries. */
  datatype Dict<V> = Dict(keys: seq<string>, entries: map<string, V>)

  /** Keys listed once each, and exactly the keys of the entries. */
  ghost predicate DictWellFormed<V>(d: Dict<V>) {
    (forall j, k :: 0 <= j < k < |d.keys| ==> d.keys[j] != d.keys[k]) &&
    (forall c :: c in d.entries ==> c in d.keys) &&
    (forall j :: 0 <= j < |d.keys| ==> d.keys[j] in d.entries)
  }

  /** `d[key] = value`: an existing key keeps its place, a new one goes
      last. */
  function Put<V>(d: Dict<V>, key: string, value: V): (r: Dict<V>)
    ensures r.entries == d.entries[key := value]
    ensures key in d.entries ==> r.keys == d.keys
    ensures key !in d.entries ==> r.keys == d.keys + [key]
  {
    if key in d.entries then Dict(d.keys, d.entries[key := value]) else Dict(d.keys + [key], d.entries[key := value])
  }

  /** Assignment keeps a dict well formed. */
  lemma PutWellFormed<V>(d: Dict<V>, key: string, value: V)
    requires DictWellFormed(d)
    ensures DictWellFormed(Put(d, key, value))
  {
    var r := Put(d, key, value);
    if key !in d.entries {
      forall j, k | 0 <= j < k < |r.keys| ensures r.keys[j] != r.keys[k] {
        if k == |d.keys| {
          assert r.keys[j] == d.keys[j];
        }
      }
    }
  }
}
