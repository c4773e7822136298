/** `InMemoryCacheBackend`: two dictionaries of parallel lists and a running
    total, changed in place, proved against the value-level CacheStore. */
module CacheBackend {
  import opened Text
  import opened Collections
  import opened CacheStore
  import opened Sorting

  function Rows(lib: Library, entries: seq<Entry>): seq<Vec> {
    seq(|entries|, i requires 0 <= i < |entries| => lib.toRow(entries[i].embedding))
  }

  /** `after` is `before` with the list of `k` replaced by `list`. */
  ghost predicate Replaced(before: map<string, seq<Entry>>, after: map<string, seq<Entry>>, k: string, list: seq<Entry>) {
    && (forall x :: x in before <==> x in after)
    && k in after && after[k] == list
    && forall x :: x in before && x != k ==> after[x] == before[x]
  }

  lemma ReplacedIsUpdate(before: map<string, seq<Entry>>, after: map<string, seq<Entry>>, k: string, list: seq<Entry>)
    requires Replaced(before, after, k, list)
    ensures k in before ==> after == before[k := list]
  {
    if k in before { assert after.Keys == before[k := list].Keys; }
  }

  function RemoveAt<T>(s: seq<T>, i: nat): seq<T>
    requires i < |s|
  {
    s[..i] + s[i + 1..]
  }

  lemma RowsRemoveAt(lib: Library, entries: seq<Entry>, i: nat)
    requires i < |entries|
    ensures RemoveAt(Rows(lib, entries), i) == Rows(lib, RemoveAt(entries, i))
  {
  }

  lemma RowsAppend(lib: Library, entries: seq<Entry>, entry: Entry)
    ensures Rows(lib, entries + [entry]) == Rows(lib, entries) + [lib.toRow(entry.embedding)]
  {
  }

  class InMemoryCacheBackend {
    const maxPerScope: nat
    const maxTotal: nat
    const lib: Library
    // The keys of `entries` in insertion order, which a Python dict iterates in.
    var keys: seq<string>
    var entries: map<string, seq<Entry>>
    var embeddings: map<string, seq<Vec>>
    var totalEntries: int
    // CacheStats.  SemanticCache counts hits and misses.
    var stores: nat
    var evictions: nat
    var hits: nat
    var misses: nat
    // Removals the source does not count, by cause.
    ghost var expiredOut: nat
    ghost var corruptedOut: nat
    ghost var invalidatedOut: nat
    ghost var purgedOut: nat

    ghost function Contents(): Snapshot
      reads this`keys, this`entries
    {
      Snapshot(keys, entries)
    }

    /** The representation: both dictionaries have the same keys, row i is the
        embedding of entry i, and the running total is the number of entries. */
    ghost predicate Consistent()
      reads `keys, `entries, `embeddings, `totalEntries
    {
      && WellFormed(Contents())
      && (forall k :: k in entries <==> k in embeddings)
      && (forall k :: k in entries ==> embeddings[k] == Rows(lib, entries[k]))
      && totalEntries == Total(Contents())
    }

    /** Between operations: the representation, both capacity limits, and every
        entry ever stored either still here or removed for exactly one cause. */
    ghost predicate Valid()
      reads this
    {
      && maxPerScope >= 1 && maxTotal >= 1
      && Consistent()
      && (forall k :: k in entries ==> |entries[k]| <= maxPerScope)
      && totalEntries <= maxTotal
      && stores == totalEntries + evictions + expiredOut + corruptedOut + invalidatedOut + purgedOut
    }

    constructor (maxEntriesPerScope: nat, maxTotalEntries: nat, library: Library)
      requires maxEntriesPerScope >= 1 && maxTotalEntries >= 1
      ensures Valid() && Contents() == EMPTY && stores == 0
      ensures maxPerScope == maxEntriesPerScope && maxTotal == maxTotalEntries && lib == library
    {
      maxPerScope, maxTotal, lib := maxEntriesPerScope, maxTotalEntries, library;
      keys, entries, embeddings, totalEntries := [], map[], map[], 0;
      stores, evictions, hits, misses := 0, 0, 0, 0;
      expiredOut, corruptedOut, invalidatedOut, purgedOut := 0, 0, 0, 0;
    }

    method RemoveEntry(scopeKey: string, idx: nat)
      requires Consistent() && scopeKey in entries && idx < |entries[scopeKey]|
      modifies `entries, `embeddings, `totalEntries
      ensures Consistent()
      ensures Replaced(old(entries), entries, scopeKey, RemoveAt(old(entries)[scopeKey], idx))
      ensures totalEntries == old(totalEntries) - 1
    {
      ghost var before := Contents();
      var list := RemoveAt(entries[scopeKey], idx);
      ghost var after := WithList(before, scopeKey, list);
      entries := entries[scopeKey := list];
      RowsRemoveAt(lib, before.lists[scopeKey], idx);
      embeddings := embeddings[scopeKey := RemoveAt(embeddings[scopeKey], idx)];
      totalEntries := totalEntries - 1;
      assert Contents() == after;
    }

    /** The loop three operations share: remove the listed positions, highest first. */
    method RemovePositions(scopeKey: string, drop: set<nat>)
      requires Consistent() && scopeKey in entries
      modifies `entries, `embeddings, `totalEntries
      ensures Consistent()
      ensures Replaced(old(entries), entries, scopeKey, Without(old(entries)[scopeKey], drop))
      ensures totalEntries == old(totalEntries) - |old(entries)[scopeKey]| + |entries[scopeKey]|
    {
      hide Consistent, WellFormed, Total;
      var list := entries[scopeKey];
      var i := |list|;
      assert list[..i] + Kept(list, drop, i) == list;
      while i > 0
        invariant 0 <= i <= |list|
        invariant Consistent()
        invariant Replaced(old(entries), entries, scopeKey, list[..i] + Kept(list, drop, i))
        invariant totalEntries == old(totalEntries) - |list| + |entries[scopeKey]|
      {
        i := i - 1;
        if i in drop {
          assert RemoveAt(entries[scopeKey], i) == list[..i] + Kept(list, drop, i);
          RemoveEntry(scopeKey, i);
        } else {
          assert list[..i + 1] + Kept(list, drop, i + 1) == list[..i] + Kept(list, drop, i);
        }
      }
      assert list[..0] + Kept(list, drop, 0) == Without(list, drop);
    }

    method EvictExpired(scopeKey: string, now: real)
      requires Valid()
      modifies `entries, `embeddings, `totalEntries, `expiredOut
      ensures Valid()
      ensures scopeKey in entries ==> scopeKey in embeddings && embeddings[scopeKey] == Rows(lib, entries[scopeKey])
      ensures if scopeKey in old(entries)
              then Replaced(old(entries), entries, scopeKey, Live(old(entries)[scopeKey], now)) else entries == old(entries)
    {
      hide NoDup, Sum, Kept, Expired;
      if scopeKey in entries {
        var list := entries[scopeKey];
        RemovePositions(scopeKey, ExpiredAt(list, now));
        expiredOut := expiredOut + (|list| - |entries[scopeKey]|);
      }
    }

    /** The most similar applicable entry, found by walking the ranking from the top. */
    method Search(scopeKey: string, q: Query, now: real) returns (found: Option<Entry>)
      requires Valid() && q.lib == lib
      modifies `entries, `embeddings, `totalEntries, `expiredOut, `corruptedOut
      ensures Valid()
      ensures entries.Keys == old(entries).Keys
      ensures Searched(q, now, ListOf(old(Contents()), scopeKey), ListOf(Contents(), scopeKey), found)
      ensures forall k :: k != scopeKey ==> ListOf(Contents(), k) == ListOf(old(Contents()), k)
    {
      hide Consistent, WellFormed, Total, ExpiredAt, CorruptedAbove, Kept, Without, IsBest, Rows, Score, Live, NoDup;
      EvictExpired(scopeKey, now);
      if scopeKey !in entries || entries[scopeKey] == [] {
        NothingLive(q, now, ListOf(old(Contents()), scopeKey));
        return None;
      }
      var live := entries[scopeKey];
      var best, corrupted := Rank(q, live, embeddings[scopeKey]);
      found := match best case None => None case Some(i) => Some(Answer(q, live[i]));
      RemovePositions(scopeKey, corrupted);
      corruptedOut := corruptedOut + (|live| - |entries[scopeKey]|);
      assert SearchedVia(q, now, ListOf(old(Contents()), scopeKey), ListOf(Contents(), scopeKey), found, best);
    }

    method Store(scopeKey: string, entry: Entry)
      requires Valid() && scopeKey != ""
      modifies this
      ensures Valid() && stores == old(stores) + 1
      ensures Contents() == StoreEntry(old(Contents()), scopeKey, entry, maxPerScope, maxTotal)
      ensures hits == old(hits) && misses == old(misses)
    {
      hide Consistent, WellFormed, NoDup, Total, ShrinkBelow, Newest, OpenScope;
      EnsureScope(scopeKey);
      TrimScope(scopeKey);
      TrimTotal(scopeKey);
      Append(scopeKey, entry);
    }

    method EnsureScope(scopeKey: string)
      requires Valid() && scopeKey != ""
      modifies `keys, `entries, `embeddings
      ensures Valid() && scopeKey in entries
      ensures Contents() == OpenScope(old(Contents()), scopeKey)
    {
      hide NoDup, Sum;
      ghost var after := OpenScope(Contents(), scopeKey);
      if scopeKey !in entries {
        keys := keys + [scopeKey];
        entries := entries[scopeKey := []];
        embeddings := embeddings[scopeKey := []];
      }
      assert Contents() == after;
    }

    /** Evicts from the front of one scope until it has room for an entry. */
    method TrimScope(scopeKey: string)
      requires Valid() && scopeKey in entries
      modifies `entries, `embeddings, `totalEntries, `evictions
      ensures Valid() && scopeKey in entries && |entries[scopeKey]| < maxPerScope
      ensures Contents() == WithList(old(Contents()), scopeKey, Newest(old(entries)[scopeKey], maxPerScope - 1))
    {
      hide Consistent, WellFormed, Total;
      ghost var list := entries[scopeKey];
      while |entries[scopeKey]| >= maxPerScope
        invariant Valid() && scopeKey in entries
        invariant |entries[scopeKey]| <= |list|
        invariant Replaced(old(entries), entries, scopeKey, Newest(list, |entries[scopeKey]|))
        invariant |entries[scopeKey]| >= if |list| < maxPerScope then |list| else maxPerScope - 1
        decreases |entries[scopeKey]|
      {
        assert RemoveAt(entries[scopeKey], 0) == Newest(list, |entries[scopeKey]| - 1);
        RemoveEntry(scopeKey, 0);
        evictions := evictions + 1;
      }
      ReplacedIsUpdate(old(entries), entries, scopeKey, entries[scopeKey]);
    }

    /** Evicts the globally oldest entries until there is room for one more. */
    method TrimTotal(ghost scopeKey: string)
      requires Valid() && scopeKey in entries && |entries[scopeKey]| < maxPerScope
      modifies `entries, `embeddings, `totalEntries, `evictions
      ensures Valid() && totalEntries < maxTotal
      ensures scopeKey in entries && |entries[scopeKey]| < maxPerScope
      ensures Contents() == ShrinkBelow(old(Contents()), maxTotal)
    {
      hide WellFormed, Total, Rows, NoDup, ShrinkBelow, EvictOldest;
      while totalEntries >= maxTotal
        invariant Valid() && scopeKey in entries && |entries[scopeKey]| < maxPerScope
        invariant ShrinkBelow(Contents(), maxTotal) == ShrinkBelow(old(Contents()), maxTotal)
        decreases totalEntries
      {
        ShrinkStep(Contents(), maxTotal);
        EvictOldestGlobal();
        evictions := evictions + 1;
      }
      ShrinkDone(Contents(), maxTotal);
    }

    method Append(scopeKey: string, entry: Entry)
      requires Valid() && scopeKey in entries && |entries[scopeKey]| < maxPerScope && totalEntries < maxTotal
      modifies `entries, `embeddings, `totalEntries, `stores
      ensures Valid() && stores == old(stores) + 1
      ensures Contents() == WithList(old(Contents()), scopeKey, old(entries)[scopeKey] + [entry])
    {
      hide Rows;
      ghost var list := entries[scopeKey] + [entry];
      ghost var after := WithList(Contents(), scopeKey, list);
      RowsAppend(lib, entries[scopeKey], entry);
      entries := entries[scopeKey := entries[scopeKey] + [entry]];
      embeddings := embeddings[scopeKey := embeddings[scopeKey] + [lib.toRow(entry.embedding)]];
      totalEntries := totalEntries + 1;
      stores := stores + 1;
      assert Contents() == after;
    }

    method EvictOldestGlobal()
      requires Consistent() && totalEntries > 0
      modifies `entries, `embeddings, `totalEntries
      ensures Consistent() && Contents() == EvictOldest(old(Contents()))
      ensures entries.Keys == old(entries).Keys && totalEntries == old(totalEntries) - 1
      ensures forall k :: k in entries ==> |entries[k]| <= |old(entries)[k]|
    {
      hide NoDup, Rows, OldestKey;
      var oldestKey := OldestScope();
      SumPositive(keys, entries);
      assert RemoveAt(entries[oldestKey.value], 0) == entries[oldestKey.value][1..];
      RemoveEntry(oldestKey.value, 0);
      ReplacedIsUpdate(old(entries), entries, oldestKey.value, entries[oldestKey.value]);
    }

    method OldestScope() returns (oldestKey: Option<string>)
      requires Consistent()
      ensures oldestKey == OldestKey(Contents(), |keys|)
    {
      hide NoDup, Rows, Total;
      oldestKey := None;
      var oldestTime := 0.0;
      for n := 0 to |keys|
        invariant oldestKey == OldestKey(Contents(), n)
        invariant oldestKey.Some? ==> oldestTime == Head(Contents(), oldestKey.value)
      {
        var list := entries[keys[n]];
        if list != [] && (oldestKey.None? || list[0].createdAt < oldestTime) {
          oldestTime := list[0].createdAt;
          oldestKey := Some(keys[n]);
        }
      }
    }

    /** With no pattern the whole scope goes; with one, the entries that used a
        matching tool. */
    method Invalidate(scopeKey: string, pattern: Option<string -> bool>) returns (count: nat)
      requires Valid()
      modifies `keys, `entries, `embeddings, `totalEntries, `invalidatedOut
      ensures Valid()
      ensures count == |ListOf(old(Contents()), scopeKey)| - |ListOf(Contents(), scopeKey)|
      ensures pattern.None? ==> Contents() == CacheStore.Invalidate(old(Contents()), scopeKey)
      ensures pattern.Some? ==>
                && entries.Keys == old(entries).Keys
                && (forall k :: k != scopeKey ==> ListOf(Contents(), k) == ListOf(old(Contents()), k))
                && ListOf(Contents(), scopeKey)
                   == Without(ListOf(old(Contents()), scopeKey), UsesTool(ListOf(old(Contents()), scopeKey), pattern.value))
    {
      hide Consistent, WellFormed, Total;
      if scopeKey !in entries || entries[scopeKey] == [] {
        return 0;
      }
      var list := entries[scopeKey];
      if pattern.None? {
        count := |list|;
        DeleteScope(scopeKey);
        invalidatedOut := invalidatedOut + count;
      } else {
        RemovePositions(scopeKey, UsesTool(list, pattern.value));
        count := |list| - |entries[scopeKey]|;
        invalidatedOut := invalidatedOut + count;
      }
    }

    /** Takes a whole scope out of both dictionaries and off the total. */
    method DeleteScope(scopeKey: string)
      requires Consistent() && scopeKey in entries
      modifies `keys, `entries, `embeddings, `totalEntries
      ensures Consistent() && Contents() == DropScope(old(Contents()), scopeKey)
      ensures totalEntries == old(totalEntries) - |old(entries)[scopeKey]|
      ensures entries == old(entries) - {scopeKey}
    {
      ghost var after := DropScope(Contents(), scopeKey);
      totalEntries := totalEntries - |entries[scopeKey]|;
      keys := RemoveKey(keys, scopeKey);
      entries := entries - {scopeKey};
      embeddings := embeddings - {scopeKey};
      assert Contents() == after;
    }

    method PurgeUser(userId: string) returns (count: nat)
      requires Valid()
      modifies `keys, `entries, `embeddings, `totalEntries, `purgedOut
      ensures Valid()
      ensures Contents() == DropScope(old(Contents()), "user:" + userId)
      ensures count == |ListOf(old(Contents()), "user:" + userId)|
    {
      hide Consistent, WellFormed, Total;
      var exactKey := "user:" + userId;
      count := 0;
      if exactKey in entries {
        count := |entries[exactKey]|;
        DeleteScope(exactKey);
        purgedOut := purgedOut + count;
      }
    }
  }

  /** The positions `invalidate(pattern)` removes. */
  function UsesTool(s: seq<Entry>, matches: string -> bool): set<nat> {
    set i: nat | i < |s| && exists t :: t in s[i].toolsUsed && matches(t)
  }

  lemma NothingLive(q: Query, now: real, before: seq<Entry>)
    requires Live(before, now) == []
    ensures Searched(q, now, before, [], None)
  {
    assert SearchedVia(q, now, before, [], None, None);
  }

  method Rank(q: Query, live: seq<Entry>, rows: seq<Vec>) returns (best: Option<nat>, corrupted: set<nat>)
    requires rows == Rows(q.lib, live)
    ensures IsBest(q, live, best)
    ensures corrupted == CorruptedAbove(q, live, best)
  {
    var queryRow := q.lib.toRow(q.vec);
    var scores := seq(|rows|, i requires 0 <= i < |rows| => q.lib.dot(rows[i], queryRow));
    var negated := seq(|rows|, i requires 0 <= i < |rows| => -scores[i]);
    var order := Argsort(negated, |negated|);
    var p;
    p, best, corrupted := Walk(q, live, scores, order);
    WalkStops(q, live, negated, order, p, best, corrupted);
  }

  /** The loop of `search`: from the best score down to the threshold, skipping
      what does not apply, collecting what is corrupted, until one entry serves. */
  method Walk(q: Query, live: seq<Entry>, scores: seq<real>, order: seq<nat>)
    returns (p: nat, best: Option<nat>, corrupted: set<nat>)
    requires |scores| == |live| && forall i :: 0 <= i < |live| ==> scores[i] == Score(q, live[i])
    requires forall t :: 0 <= t < |order| ==> order[t] < |live|
    ensures p <= |order| && corrupted == Met(q, live, order, p)
    ensures forall t :: 0 <= t < p ==> !Servable(q, live[order[t]])
    ensures match best
            case None => p == |order| || Score(q, live[order[p]]) < q.threshold
            case Some(i) => p < |order| && i == order[p] && Servable(q, live[i])
  {
    best, corrupted, p := None, {}, 0;
    while p < |order|
      invariant p <= |order|
      invariant forall t :: 0 <= t < p ==> !Servable(q, live[order[t]])
      invariant corrupted == Met(q, live, order, p)
    {
      var idx := order[p];
      if scores[idx] < q.threshold {
        return;
      }
      if q.accepts(live[idx]) {
        if Intact(q.lib, live[idx]) {
          best := Some(idx);
          return;
        }
        corrupted := corrupted + {idx};
      }
      p := p + 1;
    }
  }

  /** Stopping the walk at position `p` of the ranking finds the best servable
      entry, and has met exactly the corrupted entries above it. */
  lemma WalkStops(q: Query, live: seq<Entry>, negated: seq<real>, order: seq<nat>, p: nat,
                     best: Option<nat>, corrupted: set<nat>)
    requires |negated| == |live| && IsRanking(negated, order, |negated|) && p <= |order|
    requires forall i :: 0 <= i < |live| ==> negated[i] == -Score(q, live[i])
    requires forall t :: 0 <= t < p ==> !Servable(q, live[order[t]])
    requires corrupted == Met(q, live, order, p)
    requires match best
             case None => p == |order| || Score(q, live[order[p]]) < q.threshold
             case Some(i) => p < |order| && i == order[p] && Servable(q, live[i])
    ensures IsBest(q, live, best)
    ensures corrupted == CorruptedAbove(q, live, best)
  {
    forall i | 0 <= i < |live|
      ensures best.None? ==> !Servable(q, live[i])
      ensures best.Some? && i != best.value && Servable(q, live[i]) ==> Above(q, live, best.value, i)
      ensures i in corrupted <==> i in CorruptedAbove(q, live, best)
    {
      assert i in order;
      var t :| 0 <= t < |order| && order[t] == i;
      MetMember(q, live, negated, order, p, t);
      WalkPosition(q, live, negated, order, p, t);
    }
    MetBound(q, live, order, p);
  }

  /** Where position `t` of the ranking lies relative to the stop `p`. */
  lemma WalkPosition(q: Query, live: seq<Entry>, negated: seq<real>, order: seq<nat>, p: nat, t: nat)
    requires |negated| == |live| && IsRanking(negated, order, |negated|) && p <= |order| && t < |order|
    requires forall i :: 0 <= i < |live| ==> negated[i] == -Score(q, live[i])
    ensures t < p < |order| ==> Above(q, live, order[t], order[p])
    ensures p < t ==> Above(q, live, order[p], order[t]) && Score(q, live[order[t]]) <= Score(q, live[order[p]])
  {
    if t < p < |order| {
      assert Ranked(negated, order[t], order[p]);
    } else if p < t {
      assert Ranked(negated, order[p], order[t]);
    }
  }

  /** The corrupted entries met in the first `p` positions of a ranking. */
  function Met(q: Query, live: seq<Entry>, order: seq<nat>, p: nat): set<nat>
    requires p <= |order| && forall t :: 0 <= t < |order| ==> order[t] < |live|
  {
    if p == 0 then {}
    else
      var e := live[order[p - 1]];
      Met(q, live, order, p - 1) + if Applies(q, e) && !Intact(q.lib, e) then {order[p - 1]} else {}
  }

  lemma {:induction false} MetMember(q: Query, live: seq<Entry>, negated: seq<real>, order: seq<nat>, p: nat, t: nat)
    requires |negated| == |live| && IsRanking(negated, order, |negated|) && p <= |order| && t < |order|
    ensures order[t] in Met(q, live, order, p)
       <==> t < p && Applies(q, live[order[t]]) && !Intact(q.lib, live[order[t]])
  {
    if p > 0 {
      MetMember(q, live, negated, order, p - 1, t);
      assert t < p - 1 ==> Ranked(negated, order[t], order[p - 1]);
      assert t > p - 1 ==> Ranked(negated, order[p - 1], order[t]);
    }
  }

  lemma {:induction false} MetBound(q: Query, live: seq<Entry>, order: seq<nat>, p: nat)
    requires p <= |order| && forall t :: 0 <= t < |order| ==> order[t] < |live|
    ensures forall i :: i in Met(q, live, order, p) ==> i < |live|
  {
    if p > 0 { MetBound(q, live, order, p - 1); }
  }
}
