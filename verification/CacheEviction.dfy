/** What the capacity limits evict: over whole runs always a minimum by creation
    time. */
module CacheEviction {
  import opened Text
  import opened Collections
  import opened CacheStore
  import opened CacheOrder

  // ---- A store drops entries from the front only ----

  predicate SuffixOf(a: seq<Entry>, b: seq<Entry>) {
    |a| <= |b| && a == b[|b| - |a|..]
  }

  lemma SuffixTrans(a: seq<Entry>, b: seq<Entry>, c: seq<Entry>)
    requires SuffixOf(a, b) && SuffixOf(b, c)
    ensures SuffixOf(a, c)
  {
  }

  lemma EvictSuffix(s: Snapshot, x: string)
    requires WellFormed(s) && Total(s) > 0
    ensures SuffixOf(ListOf(EvictOldest(s), x), ListOf(s, x))
  {
    hide NoDup;
    SumPositive(s.keys, s.lists);
  }

  lemma {:induction false} ShrinkSuffix(s: Snapshot, cap: nat, x: string)
    requires WellFormed(s) && cap >= 1
    ensures SuffixOf(ListOf(ShrinkBelow(s, cap), x), ListOf(s, x))
    decreases Total(s)
  {
    hide NoDup, Sum, EvictOldest, ListOf, SuffixOf;
    if Total(s) >= cap {
      EvictSuffix(s, x);
      ShrinkSuffix(EvictOldest(s), cap, x);
      SuffixTrans(ListOf(ShrinkBelow(s, cap), x), ListOf(EvictOldest(s), x), ListOf(s, x));
    } else {
      SuffixSelf(ListOf(s, x));
    }
  }

  lemma SuffixSelf(a: seq<Entry>)
    ensures SuffixOf(a, a)
  {
  }

  /** The scope list after both loops, before the new entry is appended. */
  function Remaining(s: Snapshot, k: string, perScope: nat, cap: nat, x: string): seq<Entry>
    requires WellFormed(s) && k != "" && perScope >= 1 && cap >= 1
  {
    ListOf(MakeRoom(s, k, perScope, cap), x)
  }

  lemma RemainingSuffix(s: Snapshot, k: string, perScope: nat, cap: nat, x: string)
    requires WellFormed(s) && k != "" && perScope >= 1 && cap >= 1
    ensures SuffixOf(Remaining(s, k, perScope, cap, x), ListOf(s, x))
    ensures |Remaining(s, k, perScope, cap, k)| < perScope
  {
    hide WellFormed, Total, ShrinkBelow;
    var base := OpenScope(s, k);
    var trimmed := WithList(base, k, Newest(base.lists[k], perScope - 1));
    ShrinkSuffix(trimmed, cap, x);
    ShrinkSuffix(trimmed, cap, k);
    assert ListOf(base, x) == ListOf(s, x);
    SuffixTrans(Remaining(s, k, perScope, cap, x), ListOf(trimmed, x), ListOf(s, x));
  }

  /** A store appends its entry to what is left of its scope, touches other scopes
      only by dropping their oldest entries, and meets both caps. */
  lemma StoreMeetsCaps(s: Snapshot, k: string, e: Entry, perScope: nat, cap: nat, x: string)
    requires WellFormed(s) && k != "" && perScope >= 1 && cap >= 1
    ensures
      var after := StoreEntry(s, k, e, perScope, cap);
      && Total(after) <= cap && |ListOf(after, k)| <= perScope
      && ListOf(after, x) == Remaining(s, k, perScope, cap, x) + (if x == k then [e] else [])
      && SuffixOf(Remaining(s, k, perScope, cap, x), ListOf(s, x))
  {
    hide WellFormed, Total, MakeRoom;
    RemainingSuffix(s, k, perScope, cap, x);
  }

  // ---- Every eviction takes a minimum ----

  /** The state after `m` global evictions. */
  function EvictTimes(s: Snapshot, m: nat): (r: Snapshot)
    requires WellFormed(s) && m <= Total(s)
    ensures WellFormed(r) && Total(r) == Total(s) - m
  {
    if m == 0 then s else EvictOldest(EvictTimes(s, m - 1))
  }

  lemma {:induction false} EvictFirst(s: Snapshot, m: nat)
    requires WellFormed(s) && m < Total(s)
    ensures EvictTimes(EvictOldest(s), m) == EvictTimes(s, m + 1)
  {
    hide WellFormed, Total, EvictOldest;
    if m > 0 { EvictFirst(s, m - 1); }
  }

  /** The eviction loop, counted: it evicts until one below the cap. */
  lemma {:induction false} ShrinkIsEvictTimes(s: Snapshot, cap: nat)
    requires WellFormed(s) && cap >= 1
    ensures ShrinkBelow(s, cap) == EvictTimes(s, if Total(s) < cap then 0 else Total(s) - cap + 1)
    decreases Total(s)
  {
    hide WellFormed, Total, EvictOldest;
    if Total(s) >= cap {
      ShrinkStep(s, cap);
      ShrinkIsEvictTimes(EvictOldest(s), cap);
      EvictFirst(s, Total(s) - cap);
    } else {
      ShrinkDone(s, cap);
    }
  }

  lemma {:induction false} EvictTimesInOrder(s: Snapshot, m: nat, now: real)
    requires InOrder(s, now) && m <= Total(s)
    ensures InOrder(EvictTimes(s, m), now)
  {
    hide ListOk, NoDup, EvictOldest, Sum;
    if m > 0 {
      EvictTimesInOrder(s, m - 1, now);
      EvictInOrder(EvictTimes(s, m - 1), now);
    }
  }

  /** The next global eviction takes the first entry of a scope, and no entry of any
      scope is older. */
  ghost predicate NextIsOldest(s: Snapshot)
    requires WellFormed(s)
  {
    var k := OldestKey(s, |s.keys|);
    && k.Some? && s.lists[k.value] != []
    && forall x, i :: x in s.lists && 0 <= i < |s.lists[x]| ==> Head(s, k.value) <= s.lists[x][i].createdAt
  }

  /** The scope after its own evictions, where the global ones start. */
  function WithinScope(s: Snapshot, k: string, perScope: nat): (r: Snapshot)
    requires WellFormed(s) && k != "" && perScope >= 1
    ensures WellFormed(r)
  {
    var base := OpenScope(s, k);
    WithList(base, k, Newest(base.lists[k], perScope - 1))
  }

  function GlobalEvictions(s: Snapshot, cap: nat): nat
    requires WellFormed(s)
  {
    if Total(s) < cap || cap == 0 then 0 else Total(s) - cap + 1
  }

  /** In every run with nondecreasing creation times every eviction takes a minimum.
      A scope is sorted when its own evictions take its first entries, and each
      global eviction finds a head that no entry of any scope is older than. */
  lemma RunEvictsOldest(states: seq<Snapshot>, ops: seq<Op>, clock: seq<real>, n: nat, perScope: nat, cap: nat, m: nat)
    requires perScope >= 1 && cap >= 1 && Run(states, ops, perScope, cap) && Monotone(ops, clock)
    requires n < |ops| && ops[n].Store?
    ensures WellFormed(states[n]) && ops[n].key != ""
    ensures Sorted(ListOf(states[n], ops[n].key))
    ensures
      var s := WithinScope(states[n], ops[n].key, perScope);
      && ListOf(s, ops[n].key) == Newest(ListOf(states[n], ops[n].key), perScope - 1)
      && MakeRoom(states[n], ops[n].key, perScope, cap) == EvictTimes(s, GlobalEvictions(s, cap))
      && (m < GlobalEvictions(s, cap) ==> NextIsOldest(EvictTimes(s, m)))
  {
    hide Next, ListOk, NoDup, Sum, EvictOldest, EvictTimes, ShrinkBelow;
    var k := ops[n].key;
    assert Next(states[n], ops[n], states[n + 1], perScope, cap);
    StorePermitted(states[n], ops[n], states[n + 1], perScope, cap);
    RunInOrder(states, ops, clock, n, perScope, cap);
    var s := WithinScope(states[n], k, perScope);
    WithinScopeInOrder(states[n], k, perScope, clock[n]);
    ShrinkIsEvictTimes(s, cap);
    if m < GlobalEvictions(s, cap) {
      EvictTimesInOrder(s, m, clock[n]);
      EvictionIsOldest(EvictTimes(s, m), clock[n]);
    }
  }

  lemma WithinScopeInOrder(s: Snapshot, k: string, perScope: nat, now: real)
    requires InOrder(s, now) && k != "" && perScope >= 1
    ensures InOrder(WithinScope(s, k, perScope), now) && Sorted(ListOf(s, k))
    ensures ListOf(WithinScope(s, k, perScope), k) == Newest(ListOf(s, k), perScope - 1)
  {
    hide WellFormed, Total;
    var base := OpenScope(s, k);
    OpenInOrder(s, k, now);
    ListInOrder(base, k, now);
    ListTrim(base.lists[k], perScope - 1, now);
    WithListInOrder(base, k, Newest(base.lists[k], perScope - 1), now);
    assert ListOf(base, k) == ListOf(s, k);
  }
}
