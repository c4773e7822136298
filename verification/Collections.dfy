/** Ordered dictionaries, as sequences of items from the oldest to the newest, and
    what else is said of sequences in more than one place. */
module Collections {
  function Max(a: int, b: int): (r: int)
    ensures r >= a && r >= b && (r == a || r == b)
  {
    if a > b then a else b
  }

  predicate NoDup<T(==)>(s: seq<T>) {
    forall i, j :: 0 <= i < j < |s| ==> s[i] != s[j]
  }

  /** The last `n` elements, or all of them. */
  function Newest<T>(s: seq<T>, n: nat): seq<T> {
    if |s| <= n then s else s[|s| - n..]
  }

  datatype Item<V> = Item(key: string, value: V)

  predicate Distinct<V>(d: seq<Item<V>>) {
    forall i, j :: 0 <= i < j < |d| ==> d[i].key != d[j].key
  }

  function Remove<V(!new)>(d: seq<Item<V>>, key: string): (r: seq<Item<V>>)
    ensures |r| <= |d|
    ensures forall x :: x in r <==> x in d && x.key != key
  {
    if d == [] then [] else (if d[0].key == key then [] else [d[0]]) + Remove(d[1..], key)
  }

  lemma {:induction false} RemoveDistinct<V(!new)>(d: seq<Item<V>>, key: string)
    requires Distinct(d)
    ensures Distinct(Remove(d, key))
  {
    if d != [] {
      RemoveDistinct(d[1..], key);
      var r := Remove(d[1..], key);
      assert forall i :: 0 <= i < |r| ==> r[i] in d[1..];
    }
  }

  lemma AppendDistinct<V>(d: seq<Item<V>>, x: Item<V>)
    requires Distinct(d) && forall y :: y in d ==> y.key != x.key
    ensures Distinct(d + [x])
  {
    forall i | 0 <= i < |d|
      ensures d[i].key != x.key
    {
      assert d[i] in d;
    }
  }

  lemma NewestDistinct<V>(d: seq<Item<V>>, n: nat)
    requires Distinct(d)
    ensures Distinct(Newest(d, n)) && |Newest(d, n)| <= n
  {
  }

  /** A dictionary has no more items than there are keys to choose from. */
  lemma {:induction false} DistinctCount<V>(d: seq<Item<V>>, keys: set<string>)
    requires Distinct(d) && forall x :: x in d ==> x.key in keys
    ensures |d| <= |keys|
  {
    if d != [] {
      DistinctCount(d[1..], keys - {d[0].key});
    }
  }
}
