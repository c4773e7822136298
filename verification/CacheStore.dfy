/** What the in-memory cache backend means: its contents as a value, and every
    operation as a function or relation on that value.  The class that keeps
    parallel lists and a running total is proved against this in CacheBackend. */
module CacheStore {
  import opened Text
  import opened Collections

  type Vec = seq<real>

  /** The numeric and hashing code the cache calls: conversion of an embedding
      to a matrix row, the dot product of two rows, and SHA-256. */
  datatype Library = Library(toRow: Vec -> Vec, dot: (Vec, Vec) -> real, digest: string -> string)

  /** A `CacheEntry`.  The replayed `output` is opaque to the cache; here it is
      named by the number of the request that produced it. */
  datatype Entry = Entry(
    queryText: string, response: string, output: nat, embedding: Vec, scopeKey: string,
    contextFingerprint: string, modelId: string, instructionHash: string,
    checksum: string, createdAt: real, ttl: int, toolsUsed: seq<string>,
    similarity: Option<real>)

  /** Scope lists, and the order in which a Python dict would iterate them. */
  datatype Snapshot = Snapshot(keys: seq<string>, lists: map<string, seq<Entry>>)

  const EMPTY := Snapshot([], map[])

  predicate Expired(e: Entry, now: real) { now - e.createdAt > e.ttl as real }

  predicate Intact(lib: Library, e: Entry) { e.checksum == lib.digest(e.response) }

  // ---- Sequences ----

  /** `s[from..]` without the positions in `drop`. */
  function Kept(s: seq<Entry>, drop: set<nat>, from: nat): (r: seq<Entry>)
    requires from <= |s|
    ensures |r| <= |s| - from
    decreases |s| - from
  {
    if from == |s| then []
    else (if from in drop then [] else [s[from]]) + Kept(s, drop, from + 1)
  }

  function Without(s: seq<Entry>, drop: set<nat>): (r: seq<Entry>)
    ensures |r| <= |s|
  {
    Kept(s, drop, 0)
  }

  lemma {:induction false} KeptMember(s: seq<Entry>, drop: set<nat>, from: nat, i: nat)
    requires from <= i < |s| && i !in drop
    ensures s[i] in Kept(s, drop, from)
    decreases |s| - from
  {
    if from < i { KeptMember(s, drop, from + 1, i); }
  }

  lemma {:induction false} KeptOrigin(s: seq<Entry>, drop: set<nat>, from: nat, p: nat) returns (i: nat)
    requires from <= |s| && p < |Kept(s, drop, from)|
    ensures from <= i < |s| && i !in drop && s[i] == Kept(s, drop, from)[p]
    decreases |s| - from
  {
    if from in drop {
      i := KeptOrigin(s, drop, from + 1, p);
    } else if p == 0 {
      i := from;
    } else {
      i := KeptOrigin(s, drop, from + 1, p - 1);
    }
  }

  // ---- Well-formedness and size ----

  ghost predicate WellFormed(s: Snapshot) {
    && NoDup(s.keys)
    && (forall k :: k in s.keys <==> k in s.lists)
    && "" !in s.keys
  }

  function Sum(keys: seq<string>, lists: map<string, seq<Entry>>): nat
    requires forall k :: k in keys ==> k in lists
  {
    if keys == [] then 0 else |lists[keys[0]]| + Sum(keys[1..], lists)
  }

  function Total(s: Snapshot): nat
    requires WellFormed(s)
  {
    Sum(s.keys, s.lists)
  }

  function ListOf(s: Snapshot, k: string): seq<Entry> {
    if k in s.lists then s.lists[k] else []
  }

  lemma {:induction false} SumUpdate(keys: seq<string>, lists: map<string, seq<Entry>>, k: string, l: seq<Entry>)
    requires NoDup(keys) && forall x :: x in keys ==> x in lists
    requires k in lists
    ensures Sum(keys, lists[k := l]) == Sum(keys, lists) + if k in keys then |l| - |lists[k]| else 0
  {
    if keys != [] {
      SumUpdate(keys[1..], lists, k, l);
    }
  }

  lemma {:induction false} SumGrow(keys: seq<string>, lists: map<string, seq<Entry>>, k: string)
    requires (forall x :: x in keys ==> x in lists) && k !in keys
    ensures Sum(keys + [k], lists[k := []]) == Sum(keys, lists)
  {
    if keys == [] {
      assert [k][1..] == [];
    } else {
      assert (keys + [k])[1..] == keys[1..] + [k];
      SumGrow(keys[1..], lists, k);
    }
  }

  function RemoveKey(keys: seq<string>, k: string): (r: seq<string>)
    ensures forall x :: x in r <==> x in keys && x != k
    ensures NoDup(keys) ==> NoDup(r)
  {
    if keys == [] then []
    else if keys[0] == k then RemoveKey(keys[1..], k)
    else
      var r := RemoveKey(keys[1..], k);
      assert NoDup(keys) ==> NoDup(keys[1..]) && forall i :: 0 <= i < |r| ==> r[i] in keys[1..] && r[i] != keys[0];
      [keys[0]] + r
  }

  lemma {:induction false} SumRemove(keys: seq<string>, lists: map<string, seq<Entry>>, k: string)
    requires NoDup(keys) && forall x :: x in keys ==> x in lists
    requires k in lists
    ensures Sum(RemoveKey(keys, k), lists - {k}) + (if k in keys then |lists[k]| else 0) == Sum(keys, lists)
  {
    if keys != [] {
      SumRemove(keys[1..], lists, k);
      if keys[0] != k {
        assert RemoveKey(keys, k)[1..] == RemoveKey(keys[1..], k);
      }
    }
  }

  lemma {:induction false} SumPositive(keys: seq<string>, lists: map<string, seq<Entry>>)
    requires forall x :: x in keys ==> x in lists
    requires Sum(keys, lists) > 0
    ensures exists k :: k in keys && lists[k] != []
  {
    if lists[keys[0]] == [] {
      SumPositive(keys[1..], lists);
    }
  }

  // ---- Updates ----

  function WithList(s: Snapshot, k: string, l: seq<Entry>): (r: Snapshot)
    requires WellFormed(s) && k in s.lists
    ensures WellFormed(r) && Total(r) == Total(s) - |s.lists[k]| + |l|
  {
    SumUpdate(s.keys, s.lists, k, l);
    s.(lists := s.lists[k := l])
  }

  function OpenScope(s: Snapshot, k: string): (r: Snapshot)
    requires WellFormed(s) && k != ""
    ensures WellFormed(r) && Total(r) == Total(s) && k in r.lists
    ensures forall x :: ListOf(r, x) == ListOf(s, x)
  {
    if k in s.lists then s
    else
      SumGrow(s.keys, s.lists, k);
      Snapshot(s.keys + [k], s.lists[k := []])
  }

  function DropScope(s: Snapshot, k: string): (r: Snapshot)
    requires WellFormed(s)
    ensures WellFormed(r) && Total(r) == Total(s) - |ListOf(s, k)|
    ensures ListOf(r, k) == [] && forall x :: x != k ==> ListOf(r, x) == ListOf(s, x)
  {
    if k in s.lists then
      SumRemove(s.keys, s.lists, k);
      Snapshot(RemoveKey(s.keys, k), s.lists - {k})
    else s
  }

  /** What `invalidate` does without a pattern: an absent or empty scope is left as it is. */
  function Invalidate(s: Snapshot, k: string): (r: Snapshot)
    requires WellFormed(s)
    ensures WellFormed(r) && Total(r) == Total(s) - |ListOf(s, k)|
    ensures ListOf(r, k) == [] && forall x :: x != k ==> ListOf(r, x) == ListOf(s, x)
  {
    if ListOf(s, k) == [] then s else DropScope(s, k)
  }

  // ---- Global eviction ----

  function Head(s: Snapshot, k: string): real
    requires k in s.lists && s.lists[k] != []
  {
    s.lists[k][0].createdAt
  }

  /** The first key, in dict order, whose list has a minimal first entry among
      the first `n` keys; None when those are all empty. */
  function OldestKey(s: Snapshot, n: nat): (r: Option<string>)
    requires WellFormed(s) && n <= |s.keys|
    ensures r.None? ==> forall i :: 0 <= i < n ==> s.lists[s.keys[i]] == []
    ensures r.Some? ==> r.value in s.keys[..n] && s.lists[r.value] != []
    ensures r.Some? ==> forall i :: 0 <= i < n && s.lists[s.keys[i]] != [] ==>
                          Head(s, r.value) <= Head(s, s.keys[i])
  {
    if n == 0 then None
    else
      var best := OldestKey(s, n - 1);
      var k := s.keys[n - 1];
      assert s.keys[..n] == s.keys[..n - 1] + [k];
      if s.lists[k] != [] && (best.None? || Head(s, k) < Head(s, best.value)) then Some(k) else best
  }

  function EvictOldest(s: Snapshot): (r: Snapshot)
    requires WellFormed(s) && Total(s) > 0
    ensures WellFormed(r) && Total(r) == Total(s) - 1
    ensures r.lists.Keys == s.lists.Keys && r.keys == s.keys
  {
    SumPositive(s.keys, s.lists);
    var k := OldestKey(s, |s.keys|).value;
    WithList(s, k, s.lists[k][1..])
  }

  /** Evicts until the total is below the cap. */
  function ShrinkBelow(s: Snapshot, cap: nat): (r: Snapshot)
    requires WellFormed(s) && cap >= 1
    ensures WellFormed(r) && r.lists.Keys == s.lists.Keys && r.keys == s.keys
    ensures Total(r) == if Total(s) < cap then Total(s) else cap - 1
    decreases Total(s)
  {
    if Total(s) >= cap then ShrinkBelow(EvictOldest(s), cap) else s
  }

  /** One eviction does not change where the loop ends. */
  lemma ShrinkStep(s: Snapshot, cap: nat)
    requires WellFormed(s) && cap >= 1 && Total(s) >= cap
    ensures ShrinkBelow(s, cap) == ShrinkBelow(EvictOldest(s), cap)
  {
    hide WellFormed, Total, EvictOldest;
  }

  lemma ShrinkDone(s: Snapshot, cap: nat)
    requires WellFormed(s) && cap >= 1 && Total(s) < cap
    ensures ShrinkBelow(s, cap) == s
  {
  }

  /** Both capacity limits hold for room to add one entry to `k`. */
  function MakeRoom(s: Snapshot, k: string, perScope: nat, cap: nat): (r: Snapshot)
    requires WellFormed(s) && k != "" && perScope >= 1 && cap >= 1
    ensures WellFormed(r) && k in r.lists && Total(r) < cap
  {
    var base := OpenScope(s, k);
    ShrinkBelow(WithList(base, k, Newest(base.lists[k], perScope - 1)), cap)
  }

  function StoreEntry(s: Snapshot, k: string, e: Entry, perScope: nat, cap: nat): (r: Snapshot)
    requires WellFormed(s) && k != "" && perScope >= 1 && cap >= 1
    ensures WellFormed(r) && Total(r) <= cap
  {
    var room := MakeRoom(s, k, perScope, cap);
    WithList(room, k, room.lists[k] + [e])
  }

  lemma StoredIsThere(s: Snapshot, k: string, e: Entry, perScope: nat, cap: nat)
    requires WellFormed(s) && k != "" && perScope >= 1 && cap >= 1
    ensures e in ListOf(StoreEntry(s, k, e, perScope, cap), k)
  {
    hide WellFormed, Total, MakeRoom;
  }

  // ---- Search ----

  /** Everything a search asks of an entry, apart from the time. */
  datatype Query = Query(lib: Library, vec: Vec, threshold: real, accepts: Entry -> bool)

  function Score(q: Query, e: Entry): real {
    q.lib.dot(q.lib.toRow(e.embedding), q.lib.toRow(q.vec))
  }

  predicate Applies(q: Query, e: Entry) { Score(q, e) >= q.threshold && q.accepts(e) }

  predicate Servable(q: Query, e: Entry) { Applies(q, e) && Intact(q.lib, e) }

  /** Position `i` ranks above `j`: a higher score, or the same and stored earlier. */
  predicate Above(q: Query, s: seq<Entry>, i: nat, j: nat)
    requires i < |s| && j < |s|
  {
    Score(q, s[i]) > Score(q, s[j]) || (Score(q, s[i]) == Score(q, s[j]) && i < j)
  }

  /** `best` is the highest ranked servable position of `s`, or None when there is none. */
  ghost predicate IsBest(q: Query, s: seq<Entry>, best: Option<nat>) {
    match best
    case None => forall j :: 0 <= j < |s| ==> !Servable(q, s[j])
    case Some(i) =>
      && i < |s| && Servable(q, s[i])
      && forall j :: 0 <= j < |s| && j != i && Servable(q, s[j]) ==> Above(q, s, i, j)
  }

  lemma BestUnique(q: Query, s: seq<Entry>, a: Option<nat>, b: Option<nat>)
    requires IsBest(q, s, a) && IsBest(q, s, b)
    ensures a == b
  {
  }

  function ExpiredAt(s: seq<Entry>, now: real): set<nat> {
    set i: nat | i < |s| && Expired(s[i], now)
  }

  function Live(s: seq<Entry>, now: real): (r: seq<Entry>)
    ensures s == [] ==> r == []
  {
    Without(s, ExpiredAt(s, now))
  }

  /** The corrupted entries a search meets before it stops at `best`. */
  ghost function CorruptedAbove(q: Query, s: seq<Entry>, best: Option<nat>): set<nat>
    requires best.Some? ==> best.value < |s|
  {
    set i: nat | i < |s| && Applies(q, s[i]) && !Intact(q.lib, s[i])
                 && (best.None? || Above(q, s, i, best.value))
  }

  /** A search of list `before` at time `now` stops at `best`, answers `found` and leaves `after`. */
  ghost predicate SearchedVia(q: Query, now: real, before: seq<Entry>, after: seq<Entry>,
                              found: Option<Entry>, best: Option<nat>) {
    var live := Live(before, now);
    && IsBest(q, live, best)
    && after == Without(live, CorruptedAbove(q, live, best))
    && found == match best
                case None => None
                case Some(i) => Some(Answer(q, live[i]))
  }

  ghost predicate Searched(q: Query, now: real, before: seq<Entry>, after: seq<Entry>, found: Option<Entry>) {
    exists best: Option<nat> :: SearchedVia(q, now, before, after, found, best)
  }

  /** The copy a search returns. */
  function Answer(q: Query, e: Entry): Entry { e.(similarity := Some(Score(q, e))) }

  /** What a caller may rely on: the answer is a live, intact, accepted entry of
      the scope with the best score of all such entries, and a search answers
      nothing only when there is no such entry. */
  lemma SearchAnswers(q: Query, now: real, before: seq<Entry>, after: seq<Entry>, found: Option<Entry>)
    requires Searched(q, now, before, after, found)
    ensures found.Some? ==>
              exists e :: && e in before && !Expired(e, now) && Servable(q, e)
                          && found.value == Answer(q, e)
                          && forall x :: x in before && !Expired(x, now) && Servable(q, x) ==> Score(q, e) >= Score(q, x)
    ensures found.None? <==> forall x :: x in before && !Expired(x, now) ==> !Servable(q, x)
  {
    var live := Live(before, now);
    var best: Option<nat> :| SearchedVia(q, now, before, after, found, best);
    forall x | x in before && !Expired(x, now)
      ensures x in live
    {
      var i :| 0 <= i < |before| && before[i] == x;
      KeptMember(before, ExpiredAt(before, now), 0, i);
    }
    if best.Some? {
      var e := live[best.value];
      var i := KeptOrigin(before, ExpiredAt(before, now), 0, best.value);
      assert e in before && !Expired(e, now);
    } else {
      forall x | x in before && !Expired(x, now) ensures !Servable(q, x) {
        assert x in live;
      }
    }
  }

  /** A search loses no entry it could have answered with: what it removes is
      expired or corrupted. */
  lemma SearchKeeps(q: Query, now: real, before: seq<Entry>, after: seq<Entry>, found: Option<Entry>, e: Entry)
    requires Searched(q, now, before, after, found)
    ensures e in after ==> e in before && !Expired(e, now)
    ensures e in before && !Expired(e, now) && (Intact(q.lib, e) || !Applies(q, e)) ==> e in after
  {
    var live := Live(before, now);
    var best: Option<nat> :| SearchedVia(q, now, before, after, found, best);
    if e in after {
      var n :| 0 <= n < |after| && after[n] == e;
      var p := KeptOrigin(live, CorruptedAbove(q, live, best), 0, n);
      var i := KeptOrigin(before, ExpiredAt(before, now), 0, p);
    }
    if e in before && !Expired(e, now) && (Intact(q.lib, e) || !Applies(q, e)) {
      var i :| 0 <= i < |before| && before[i] == e;
      KeptMember(before, ExpiredAt(before, now), 0, i);
      var p :| 0 <= p < |live| && live[p] == e;
      KeptMember(live, CorruptedAbove(q, live, best), 0, p);
    }
  }
}
