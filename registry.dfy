/**
 * A Python dict literal used as a lookup table: an ordered list of distinct string keys,
 * each with its value, as the factories keep them.
 */
module Registry {
  import opened Wrappers

  type Table<V> = seq<(string, V)>

  /** The keys in insertion order, as `list(d.keys())` gives them. */
  function Keys<V>(t: Table<V>): (ks: seq<string>)
    ensures |ks| == |t|
    ensures forall i :: 0 <= i < |t| ==> ks[i] == t[i].0
  {
    seq(|t|, i requires 0 <= i < |t| => t[i].0)
  }

  /** A dict cannot hold a key twice. */
  ghost predicate DistinctKeys<V>(t: Table<V>)
  {
    forall i, j :: 0 <= i < j < |t| ==> t[i].0 != t[j].0
  }

  /** `d.get(key)`: the value stored under `key`, or None. */
  function Get<V>(t: Table<V>, key: string): (r: Option<V>)
    ensures r.None? <==> key !in Keys(t)
    ensures r.Some? ==> (key, r.value) in t
  {
    if t == [] then None
    else if t[0].0 == key then Some(t[0].1)
    else
      assert Keys(t) == [t[0].0] + Keys(t[1..]);
      Get(t[1..], key)
  }

  /** In a table with distinct keys, looking up the key of an entry finds that entry's value. */
  lemma {:induction false} GetEntry<V>(t: Table<V>, i: nat)
    requires DistinctKeys(t)
    requires i < |t|
    ensures Get(t, t[i].0) == Some(t[i].1)
  {
    if i > 0 {
      assert t[0].0 != t[i].0;
      GetEntry(t[1..], i - 1);
    }
  }

  /** Python's `repr` of a list of strings without quote characters: `['a', 'b']`. */
  function ListRepr(items: seq<string>): (r: string)
    ensures |r| >= 2 && r[0] == '[' && r[|r| - 1] == ']'
    ensures items == [] <==> r == "[]"
  {
    "[" + QuotedItems(items) + "]"
  }

  function QuotedItems(items: seq<string>): (r: string)
    ensures items == [] <==> r == ""
  {
    if items == [] then ""
    else if |items| == 1 then "'" + items[0] + "'"
    else "'" + items[0] + "', " + QuotedItems(items[1..])
  }

  /** Two keys print as `['a', 'b']`: each quoted, separated by a comma and a space. */
  lemma ListReprTwo(a: string, b: string)
    ensures ListRepr([a, b]) == "['" + a + "', '" + b + "']"
  {
    assert [a, b][1..] == [b];
    assert QuotedItems([a, b]) == "'" + a + "', " + ("'" + b + "'");
  }
}
