/**
 * System.Collections.Specialized.NameValueCollection as the library uses it:
 * keys in the order they were first added, each with the list of values added
 * under it; keys compare case-insensitively; the indexer joins a key's values
 * with ",". The collection is shared by reference, so it is a class whose
 * methods update its entry list; the pure functions on entry lists specify them.
 */
module NameValues {
  import opened Text
  import opened Results

  datatype Entry = Entry(key: string, values: seq<string>)

  /** The collection's default key comparer: case-insensitive (ASCII letters folded). */
  predicate SameKey(a: string, b: string)
  {
    ToLower(a) == ToLower(b)
  }

  /** What every collection satisfies: each key has a value and no two keys compare equal. */
  predicate WellFormed(es: seq<Entry>)
  {
    && (forall i :: 0 <= i < |es| ==> es[i].values != [])
    && (forall i, j :: 0 <= i < j < |es| ==> !SameKey(es[i].key, es[j].key))
  }

  /** The position of the entry whose key compares equal to `key`, or -1. */
  function Find(es: seq<Entry>, key: string): (r: int)
    ensures -1 <= r < |es|
    ensures r >= 0 ==> SameKey(es[r].key, key)
    ensures r >= 0 ==> forall i :: 0 <= i < r ==> !SameKey(es[i].key, key)
    ensures r == -1 <==> forall i :: 0 <= i < |es| ==> !SameKey(es[i].key, key)
  {
    if es == [] then -1
    else if SameKey(es[0].key, key) then 0
    else
      var k := Find(es[1..], key);
      if k < 0 then -1 else k + 1
  }

  /** `AllKeys`. */
  function Keys(es: seq<Entry>): (r: seq<string>)
    ensures |r| == |es|
    ensures forall i :: 0 <= i < |es| ==> r[i] == es[i].key
  {
    if es == [] then [] else [es[0].key] + Keys(es[1..])
  }

  /** The indexer `c[key]`: the key's values joined with ",", or null (None). */
  function Get(es: seq<Entry>, key: string): (r: Option<string>)
  {
    var k := Find(es, key);
    if k < 0 then None else Some(Join(",", es[k].values))
  }

  /** `Add(name, value)`: appends the value under an existing equal key, or adds the key at the end. */
  function WithAdded(es: seq<Entry>, name: string, value: string): (r: seq<Entry>)
    requires WellFormed(es)
    ensures WellFormed(r)
  {
    var k := Find(es, name);
    if k < 0 then
      var r := es + [Entry(name, [value])];
      assert forall i :: 0 <= i < |es| ==> !SameKey(r[i].key, r[|es|].key);
      r
    else es[k := Entry(es[k].key, es[k].values + [value])]
  }

  /** Every (key, value) pair of a collection, in its enumeration order. */
  function Pairs(es: seq<Entry>): seq<(string, string)>
  {
    if es == [] then [] else ValuePairs(es[0].key, es[0].values) + Pairs(es[1..])
  }

  function ValuePairs(key: string, values: seq<string>): seq<(string, string)>
  {
    if values == [] then [] else [(key, values[0])] + ValuePairs(key, values[1..])
  }

  /** Adds the pairs one after the other, as a loop of `Add` calls does. */
  function AddPairs(es: seq<Entry>, pairs: seq<(string, string)>): (r: seq<Entry>)
    requires WellFormed(es)
    ensures WellFormed(r)
    decreases |pairs|
  {
    if pairs == [] then es else AddPairs(WithAdded(es, pairs[0].0, pairs[0].1), pairs[1..])
  }

  /** `Add(NameValueCollection other)`: every value of `other`, key by key, added in order. */
  function AddAll(es: seq<Entry>, other: seq<Entry>): (r: seq<Entry>)
    requires WellFormed(es)
    ensures WellFormed(r)
  {
    AddPairs(es, Pairs(other))
  }

  /** Adding an empty collection changes nothing. */
  lemma AddAllEmpty(es: seq<Entry>)
    requires WellFormed(es)
    ensures AddAll(es, []) == es
  {
    assert Pairs([]) == [];
  }

  /** Looking up after `Add`: the new value is joined onto the key's old values; other keys are untouched. */
  lemma GetAfterAdd(es: seq<Entry>, name: string, value: string, key: string)
    requires WellFormed(es)
    ensures Get(WithAdded(es, name, value), key) ==
      if !SameKey(name, key) then Get(es, key)
      else if Get(es, key).None? then Some(value)
      else Some(Get(es, key).value + "," + value)
  {
    if Find(es, name) < 0 {
      GetAfterAddNew(es, name, value, key);
    } else {
      GetAfterAddExisting(es, name, value, key);
    }
  }

  /** Adding a new key appends it: only that key's lookup changes. */
  lemma GetAfterAddNew(es: seq<Entry>, name: string, value: string, key: string)
    requires WellFormed(es) && Find(es, name) < 0
    ensures Get(WithAdded(es, name, value), key) ==
      if !SameKey(name, key) then Get(es, key) else Some(value)
    ensures SameKey(name, key) ==> Get(es, key).None?
  {
    var r := WithAdded(es, name, value);
    assert forall i :: 0 <= i < |es| ==> r[i] == es[i];
    if SameKey(name, key) {
      assert Find(es, key) == -1;
      assert forall i :: 0 <= i < |es| ==> !SameKey(r[i].key, key);
      assert SameKey(r[|es|].key, key);
      assert Find(r, key) == |es|;
    } else {
      assert Find(r, key) == Find(es, key);
    }
  }

  /** Adding under an existing key extends that key's joined value and leaves the others. */
  lemma GetAfterAddExisting(es: seq<Entry>, name: string, value: string, key: string)
    requires WellFormed(es) && Find(es, name) >= 0
    ensures Get(WithAdded(es, name, value), key) ==
      if !SameKey(name, key) then Get(es, key) else Some(Get(es, key).value + "," + value)
    ensures SameKey(name, key) ==> Get(es, key).Some?
  {
    var k := Find(es, name);
    var r := WithAdded(es, name, value);
    FindKeysOnly(es, r, key);
    if SameKey(name, key) {
      assert Find(es, key) == k;
      JoinSnoc(",", es[k].values, value);
    }
  }

  lemma {:induction false} JoinSnoc(sep: string, parts: seq<string>, x: string)
    requires parts != []
    ensures Join(sep, parts + [x]) == Join(sep, parts) + sep + x
  {
    if |parts| == 1 {
      assert parts + [x] == [parts[0], x];
    } else {
      assert (parts + [x])[1..] == parts[1..] + [x];
      JoinSnoc(sep, parts[1..], x);
    }
  }

  /** In a well-formed collection every key looks up its own entry. */
  lemma GetOwnKey(es: seq<Entry>, i: nat)
    requires WellFormed(es) && i < |es|
    ensures Find(es, es[i].key) == i
    ensures Get(es, es[i].key) == Some(Join(",", es[i].values))
  {
  }

  /** `Find` looks at the keys only. */
  lemma {:induction false} FindKeysOnly(es: seq<Entry>, fs: seq<Entry>, key: string)
    requires |es| == |fs|
    requires forall i :: 0 <= i < |es| ==> es[i].key == fs[i].key
    ensures Find(es, key) == Find(fs, key)
  {
    if es != [] {
      FindKeysOnly(es[1..], fs[1..], key);
    }
  }

  /** Adding pairs whose keys are new and pairwise distinct appends one entry per pair, in order. */
  lemma {:induction false} AddPairsFresh(es: seq<Entry>, pairs: seq<(string, string)>)
    requires WellFormed(es + SingleEntries(pairs))
    ensures WellFormed(es)
    ensures AddPairs(es, pairs) == es + SingleEntries(pairs)
    decreases |pairs|
  {
    if pairs != [] {
      var e := Entry(pairs[0].0, [pairs[0].1]);
      assert SingleEntries(pairs) == [e] + SingleEntries(pairs[1..]);
      assert es + SingleEntries(pairs) == es + [e] + SingleEntries(pairs[1..]);
      AddFreshHead(es, pairs[0].0, pairs[0].1, SingleEntries(pairs[1..]));
      AddPairsFresh(es + [e], pairs[1..]);
    } else {
      assert es + SingleEntries(pairs) == es;
    }
  }

  /** The front of a well-formed collection is well-formed. */
  lemma WellFormedPrefix(es: seq<Entry>, fs: seq<Entry>)
    requires WellFormed(es + fs)
    ensures WellFormed(es)
  {
    var all := es + fs;
    assert forall i :: 0 <= i < |es| ==> all[i] == es[i];
  }

  /** A key that no earlier entry has is new, so adding it appends its entry. */
  lemma AddFreshHead(es: seq<Entry>, k: string, v: string, rest: seq<Entry>)
    requires WellFormed(es + [Entry(k, [v])] + rest)
    ensures WellFormed(es)
    ensures WithAdded(es, k, v) == es + [Entry(k, [v])]
  {
    var all := es + [Entry(k, [v])] + rest;
    WellFormedPrefix(es, [Entry(k, [v])] + rest);
    assert all == es + ([Entry(k, [v])] + rest);
    assert Find(es, k) == -1 by {
      forall i | 0 <= i < |es| ensures !SameKey(es[i].key, k) {
        assert all[i] == es[i];
        assert !SameKey(all[i].key, all[|es|].key);
      }
    }
  }

  /** One entry per pair, each holding that pair's single value. */
  function SingleEntries(pairs: seq<(string, string)>): (r: seq<Entry>)
    ensures |r| == |pairs|
    ensures forall i :: 0 <= i < |pairs| ==> r[i] == Entry(pairs[i].0, [pairs[i].1])
  {
    if pairs == [] then [] else [Entry(pairs[0].0, [pairs[0].1])] + SingleEntries(pairs[1..])
  }

  /** The collection as the pairs its indexer shows: each key with its joined value. */
  function Flattened(es: seq<Entry>): (r: seq<(string, string)>)
    ensures |r| == |es|
  {
    if es == [] then [] else [(es[0].key, Join(",", es[0].values))] + Flattened(es[1..])
  }

  /** The i-th pair is the i-th key with its values joined by ",". */
  lemma {:induction false} FlattenedAt(es: seq<Entry>, i: nat)
    requires i < |es|
    ensures Flattened(es)[i] == (es[i].key, Join(",", es[i].values))
  {
    if i > 0 {
      FlattenedAt(es[1..], i - 1);
    }
  }

  class NameValueCollection {
    var entries: seq<Entry>

    ghost predicate Valid()
      reads this
    {
      WellFormed(entries)
    }

    constructor ()
      ensures Valid() && entries == []
    {
      entries := [];
    }

    /** `Count`: the number of distinct keys. */
    function Count(): nat
      reads this
    {
      |entries|
    }

    /** The indexer `this[key]`. */
    function Item(key: string): Option<string>
      reads this
    {
      Get(entries, key)
    }

    method Add(name: string, value: string)
      requires Valid()
      modifies this
      ensures Valid()
      ensures entries == WithAdded(old(entries), name, value)
    {
      entries := WithAdded(entries, name, value);
    }

    /** `Add(NameValueCollection other)`. */
    method AddCollection(other: seq<Entry>)
      requires Valid()
      modifies this
      ensures Valid()
      ensures entries == AddAll(old(entries), other)
    {
      entries := AddAll(entries, other);
    }

    method Clear()
      modifies this
      ensures Valid() && entries == []
    {
      entries := [];
    }
  }
}
