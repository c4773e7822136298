/** Stable sorting by a key, as numpy's `argsort(kind="stable")` and Python's
    `list.sort(key=...)` do it. */
module Sorting {
  /** Position `i` comes before `j` in a stable ascending sort. */
  predicate Ranked(keys: seq<real>, i: nat, j: nat)
    requires i < |keys| && j < |keys|
  {
    keys[i] < keys[j] || (keys[i] == keys[j] && i < j)
  }

  /** `order` lists exactly the positions below `n`, each before the ones after it. */
  ghost predicate IsRanking(keys: seq<real>, order: seq<nat>, n: nat)
    requires n <= |keys|
  {
    && (forall p :: 0 <= p < |order| ==> order[p] < n)
    && (forall i :: 0 <= i < n ==> i in order)
    && (forall p, q :: 0 <= p < q < |order| ==> Ranked(keys, order[p], order[q]))
  }

  /** Inserts the position `n` into a ranking of smaller positions. */
  function Insert(keys: seq<real>, order: seq<nat>, n: nat): (r: seq<nat>)
    requires n < |keys|
    requires forall p :: 0 <= p < |order| ==> order[p] < n
    requires forall p, q :: 0 <= p < q < |order| ==> Ranked(keys, order[p], order[q])
    ensures (forall p :: 0 <= p < |r| ==> r[p] == n || r[p] in order)
    ensures n in r && (forall i :: i in order ==> i in r)
    ensures forall p, q :: 0 <= p < q < |r| ==> r[p] <= n && r[q] <= n && Ranked(keys, r[p], r[q])
  {
    if order == [] then [n]
    else if Ranked(keys, n, order[0]) then
      assert forall q :: 0 < q < |order| ==> Ranked(keys, order[0], order[q]) && Ranked(keys, n, order[q]);
      [n] + order
    else
      var rest := Insert(keys, order[1..], n);
      assert forall q :: 0 <= q < |rest| ==> rest[q] == n || rest[q] in order[1..];
      [order[0]] + rest
  }

  function Argsort(keys: seq<real>, n: nat): (order: seq<nat>)
    requires n <= |keys|
    ensures IsRanking(keys, order, n)
  {
    if n == 0 then [] else Insert(keys, Argsort(keys, n - 1), n - 1)
  }
}
