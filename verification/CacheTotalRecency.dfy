/** The total cap and recency: when the entry the global loop evicts is the least
    recently used of all scopes. */
module CacheTotalRecency {
  import opened Text
  import opened Collections
  import opened CacheStore
  import opened CacheOrder
  import opened CacheEviction
  import opened CacheRecency

  /** Every scope lists entries stored in it, in the order of their stores. */
  ghost predicate Ordered(ops: seq<Op>, n: nat, s: Snapshot)
    requires n <= |ops|
  {
    forall x :: ByStore(ops, n, x, ListOf(s, x))
  }

  /** Creation times follow the stores. */
  ghost predicate TimesFollow(ops: seq<Op>) {
    forall i, j :: 0 <= i < j < |ops| && ops[i].Store? && ops[j].Store? ==> ops[i].entry.createdAt <= ops[j].entry.createdAt
  }

  lemma {:induction false} ClockGrows(ops: seq<Op>, clock: seq<real>, i: nat, j: nat)
    requires Monotone(ops, clock) && i <= j <= |ops|
    ensures clock[i] <= clock[j]
    decreases j
  {
    if i < j {
      ClockGrows(ops, clock, i, j - 1);
      assert clock[j - 1] <= clock[j - 1 + 1];
    }
  }

  lemma MonotoneFollows(ops: seq<Op>, clock: seq<real>)
    requires Monotone(ops, clock)
    ensures TimesFollow(ops)
  {
    forall i, j | 0 <= i < j < |ops| && ops[i].Store? && ops[j].Store?
      ensures ops[i].entry.createdAt <= ops[j].entry.createdAt
    {
      ClockGrows(ops, clock, i + 1, j);
      assert clock[i + 1] == Clock(ops[i], clock[i]);
      assert clock[j] <= clock[j + 1] == Clock(ops[j], clock[j]);
    }
  }

  // ---- During a store ----

  lemma {:induction false} EvictTimesSuffix(s: Snapshot, m: nat, x: string)
    requires WellFormed(s) && m <= Total(s)
    ensures SuffixOf(ListOf(EvictTimes(s, m), x), ListOf(s, x))
  {
    hide NoDup, Sum, EvictOldest, ListOf, SuffixOf;
    if m == 0 {
      SuffixSelf(ListOf(s, x));
    } else {
      EvictTimesSuffix(s, m - 1, x);
      EvictSuffix(EvictTimes(s, m - 1), x);
      SuffixTrans(ListOf(EvictTimes(s, m), x), ListOf(EvictTimes(s, m - 1), x), ListOf(s, x));
    }
  }

  lemma WithinScopeSuffix(s: Snapshot, k: string, perScope: nat, x: string)
    requires WellFormed(s) && k != "" && perScope >= 1
    ensures SuffixOf(ListOf(WithinScope(s, k, perScope), x), ListOf(s, x))
  {
    hide WellFormed, Total;
    assert ListOf(OpenScope(s, k), x) == ListOf(s, x);
    assert ListOf(OpenScope(s, k), k) == ListOf(s, k);
  }

  /** The order survives the evictions of a store. */
  lemma MidwayOrdered(ops: seq<Op>, n: nat, s: Snapshot, k: string, perScope: nat, m: nat)
    requires n <= |ops| && Ordered(ops, n, s)
    requires WellFormed(s) && k != "" && perScope >= 1 && m <= Total(WithinScope(s, k, perScope))
    ensures Ordered(ops, n, EvictTimes(WithinScope(s, k, perScope), m))
  {
    hide WellFormed, Total, SuffixOf, ListOf, ByStore, EvictTimes, WithinScope;
    var mid := EvictTimes(WithinScope(s, k, perScope), m);
    forall x
      ensures ByStore(ops, n, x, ListOf(mid, x))
    {
      WithinScopeSuffix(s, k, perScope, x);
      EvictTimesSuffix(WithinScope(s, k, perScope), m, x);
      SuffixTrans(ListOf(mid, x), ListOf(WithinScope(s, k, perScope), x), ListOf(s, x));
      SuffixByStore(ops, n, x, ListOf(mid, x), ListOf(s, x));
    }
  }

  // ---- The exact condition ----

  /** Position `i` of scope `x`, unless that is the head of `k`. */
  predicate Other(s: Snapshot, k: string, x: string, i: int) {
    0 <= i < |ListOf(s, x)| && !(x == k && i == 0)
  }

  function OutputAt(s: Snapshot, x: string, i: int): nat
    requires 0 <= i < |ListOf(s, x)|
  {
    ListOf(s, x)[i].output
  }

  /** Every other entry, of any scope, was used later than the head of `k`. */
  ghost predicate HeadIsLru(ops: seq<Op>, n: nat, s: Snapshot, k: string)
    requires n <= |ops| && ListOf(s, k) != []
  {
    forall x, i :: Other(s, k, x, i) ==> LastUse(ops, OutputAt(s, k, 0), n) < LastUse(ops, OutputAt(s, x, i), n)
  }

  /** No search answered with the head after another entry of any scope was last
      stored or answered. */
  ghost predicate HeadNotPreferred(ops: seq<Op>, n: nat, s: Snapshot, k: string)
    requires n <= |ops| && ListOf(s, k) != []
  {
    forall x, i, j :: Other(s, k, x, i) && 0 <= j < n && Answers(ops[j], OutputAt(s, k, 0)) ==>
      UsedAfter(ops, n, OutputAt(s, x, i), j)
  }

  /** An entry with the head's own creation time that was stored before it was used
      again after the head was stored. */
  ghost predicate TiesUsed(ops: seq<Op>, n: nat, s: Snapshot, k: string)
    requires n <= |ops| && ListOf(s, k) != []
  {
    forall x, i ::
      (Other(s, k, x, i) && ListOf(s, x)[i].createdAt == ListOf(s, k)[0].createdAt
       && StoredAt(ops, OutputAt(s, x, i), n) < StoredAt(ops, OutputAt(s, k, 0), n)) ==>
      UsedAfter(ops, n, OutputAt(s, x, i), StoredAt(ops, OutputAt(s, k, 0), n) - 1)
  }

  /** The head is as old as any entry of any scope. */
  ghost predicate Oldest(s: Snapshot, k: string)
    requires ListOf(s, k) != []
  {
    forall x, i :: 0 <= i < |ListOf(s, x)| ==> ListOf(s, k)[0].createdAt <= ListOf(s, x)[i].createdAt
  }

  lemma StoredUse(ops: seq<Op>, n: nat, r: nat)
    requires n <= |ops| && StoredAt(ops, r, n) > 0
    ensures LastUse(ops, r, n) >= StoredAt(ops, r, n)
  {
    LastUseIsLast(ops, r, n, StoredAt(ops, r, n) - 1);
  }

  /** Two entries of the store are told apart by when they were stored. */
  lemma StoredApart(ops: seq<Op>, n: nat, s: Snapshot, k: string, x: string, i: nat)
    requires n <= |ops| && Ordered(ops, n, s) && ListOf(s, k) != [] && Other(s, k, x, i)
    ensures StoredIn(ops, n, k, ListOf(s, k)[0]) && StoredIn(ops, n, x, ListOf(s, x)[i])
    ensures StoredAt(ops, OutputAt(s, k, 0), n) != StoredAt(ops, OutputAt(s, x, i), n)
  {
    hide StoredAt, ListOf;
    assert ByStore(ops, n, k, ListOf(s, k)) && ByStore(ops, n, x, ListOf(s, x));
    assert StoredIn(ops, n, k, ListOf(s, k)[0]) && StoredIn(ops, n, x, ListOf(s, x)[i]);
  }

  /** One entry against the head. */
  lemma AgainstHead(ops: seq<Op>, n: nat, s: Snapshot, k: string, x: string, i: nat)
    requires n <= |ops| && StoredOnce(ops) && TimesFollow(ops) && Ordered(ops, n, s)
    requires ListOf(s, k) != [] && Oldest(s, k) && Other(s, k, x, i)
    ensures
      var h, r := OutputAt(s, k, 0), OutputAt(s, x, i);
      LastUse(ops, h, n) < LastUse(ops, r, n) <==>
        && (forall j :: 0 <= j < n && Answers(ops[j], h) ==> UsedAfter(ops, n, r, j))
        && (ListOf(s, x)[i].createdAt == ListOf(s, k)[0].createdAt && StoredAt(ops, r, n) < StoredAt(ops, h, n) ==>
              UsedAfter(ops, n, r, StoredAt(ops, h, n) - 1))
  {
    hide ListOf, Ordered, LastUse, UsedAfter, ByStore;
    var head, other := ListOf(s, k)[0], ListOf(s, x)[i];
    var h, r := head.output, other.output;
    StoredApart(ops, n, s, k, x, i);
    StoredUse(ops, n, h);
    UsedBeforeExactly(ops, n, h, r);
    var t, u := StoredAt(ops, h, n), StoredAt(ops, r, n);
    assert ops[t - 1] == Store(k, head) && ops[u - 1] == Store(x, other);
    assert head.createdAt <= other.createdAt;
    assert u < t ==> other.createdAt <= head.createdAt;
    assert forall j :: 0 <= j < n && Stores(ops[j], h) ==> j == t - 1;
    if t < u { assert UsedAfter(ops, n, r, t - 1) by { LaterStore(ops, n, r, t - 1); } }
  }

  lemma LaterStore(ops: seq<Op>, n: nat, r: nat, i: nat)
    requires n <= |ops| && i < StoredAt(ops, r, n) - 1
    ensures UsedAfter(ops, n, r, i)
  {
    assert Uses(ops[StoredAt(ops, r, n) - 1], r);
  }

  lemma HeadExactly(ops: seq<Op>, n: nat, s: Snapshot, k: string)
    requires n <= |ops| && StoredOnce(ops) && TimesFollow(ops) && Ordered(ops, n, s)
    requires ListOf(s, k) != [] && Oldest(s, k)
    ensures HeadIsLru(ops, n, s, k) <==> HeadNotPreferred(ops, n, s, k) && TiesUsed(ops, n, s, k)
  {
    hide StoredOnce, TimesFollow, Ordered, Oldest, LastUse, UsedAfter, StoredAt, ListOf, Answers;
    forall x, i | Other(s, k, x, i)
      ensures
        var h, r := OutputAt(s, k, 0), OutputAt(s, x, i);
        LastUse(ops, h, n) < LastUse(ops, r, n) <==>
          && (forall j :: 0 <= j < n && Answers(ops[j], h) ==> UsedAfter(ops, n, r, j))
          && (ListOf(s, x)[i].createdAt == ListOf(s, k)[0].createdAt && StoredAt(ops, r, n) < StoredAt(ops, h, n) ==>
                UsedAfter(ops, n, r, StoredAt(ops, h, n) - 1))
    {
      AgainstHead(ops, n, s, k, x, i);
    }
  }

  // ---- Over whole runs ----

  lemma RunOrdered(states: seq<Snapshot>, ops: seq<Op>, perScope: nat, cap: nat, n: nat)
    requires perScope >= 1 && cap >= 1 && Run(states, ops, perScope, cap) && StoredOnce(ops) && n <= |ops|
    ensures Ordered(ops, n, states[n])
  {
    hide Next, StoredOnce, ByStore;
    forall x
      ensures ByStore(ops, n, x, ListOf(states[n], x))
    {
      RunByStore(states, ops, perScope, cap, n, x);
    }
  }

  lemma NextIsHead(s: Snapshot)
    requires WellFormed(s) && NextIsOldest(s)
    ensures
      var k := OldestKey(s, |s.keys|);
      k.Some? && ListOf(s, k.value) != [] && Oldest(s, k.value)
  {
  }

  /** In every run with nondecreasing creation times, each entry the total cap evicts
      is the least recently used one of all scopes if and only if no search answered
      with it after another entry was last stored or answered, and none stored before
      it at the very same time has gone unused since. */
  lemma EvictsLruOfAllExactly(states: seq<Snapshot>, ops: seq<Op>, clock: seq<real>, perScope: nat, cap: nat, n: nat, m: nat)
    requires perScope >= 1 && cap >= 1 && Run(states, ops, perScope, cap) && Monotone(ops, clock) && StoredOnce(ops)
    requires n < |ops| && ops[n].Store?
    ensures WellFormed(states[n]) && ops[n].key != ""
    ensures
      var start := WithinScope(states[n], ops[n].key, perScope);
      m < GlobalEvictions(start, cap) ==>
        var s := EvictTimes(start, m);
        var k := OldestKey(s, |s.keys|);
        && k.Some? && ListOf(s, k.value) != []
        && (HeadIsLru(ops, n, s, k.value) <==> HeadNotPreferred(ops, n, s, k.value) && TiesUsed(ops, n, s, k.value))
  {
    hide Run, Monotone, StoredOnce, WellFormed, Total, WithinScope, EvictTimes, Ordered, Oldest, HeadIsLru,
         HeadNotPreferred, TiesUsed, TimesFollow, ListOf, MakeRoom, NextIsOldest, Sorted;
    StatesPresent(states, ops, perScope, cap);
    RunEvictsOldest(states, ops, clock, n, perScope, cap, m);
    var start := WithinScope(states[n], ops[n].key, perScope);
    if m < GlobalEvictions(start, cap) {
      var s := EvictTimes(start, m);
      MonotoneFollows(ops, clock);
      RunOrdered(states, ops, perScope, cap, n);
      MidwayOrdered(ops, n, states[n], ops[n].key, perScope, m);
      NextIsHead(s);
      HeadExactly(ops, n, s, OldestKey(s, |s.keys|).value);
    }
  }

  lemma StatesPresent(states: seq<Snapshot>, ops: seq<Op>, perScope: nat, cap: nat)
    requires perScope >= 1 && cap >= 1 && Run(states, ops, perScope, cap)
    ensures |states| == |ops| + 1
  {
  }

  // ---- A run in which the total cap evicts the entry used last ----

  function Dated(r: nat): Entry { Plain(r).(createdAt := r as real, ttl := 9) }

  function TotalOps(): seq<Op> {
    [Store("user:a", Dated(0)), Store("user:b", Dated(1)),
     Search("user:a", AskFor(0), 1.0, Some(Answer(AskFor(0), Dated(0)))), Store("user:c", Dated(2))]
  }

  const ONE := Snapshot(["user:a"], map["user:a" := [Dated(0)]])
  const TWO := Snapshot(["user:a", "user:b"], map["user:a" := [Dated(0)], "user:b" := [Dated(1)]])
  const THREE := Snapshot(["user:a", "user:b", "user:c"], map["user:a" := [], "user:b" := [Dated(1)], "user:c" := [Dated(2)]])

  lemma TotalOfOpen(s: Snapshot, k: string)
    requires WellFormed(s) && k != "" && k !in s.lists
    ensures WithinScope(s, k, 2) == Snapshot(s.keys + [k], s.lists[k := []])
    ensures Total(WithinScope(s, k, 2)) == Total(s)
  {
    var base := OpenScope(s, k);
    assert base.lists[k := []] == base.lists;
  }

  lemma StoreBelow(s: Snapshot, k: string, e: Entry)
    requires WellFormed(s) && k != "" && k !in s.lists && Total(s) < 2
    ensures StoreEntry(s, k, e, 2, 2) == Snapshot(s.keys + [k], s.lists[k := [e]])
  {
    hide WellFormed, Total;
    TotalOfOpen(s, k);
    var start := WithinScope(s, k, 2);
    ShrinkDone(start, 2);
    assert MakeRoom(s, k, 2, 2) == start;
    assert [] + [e] == [e];
    assert s.lists[k := []][k := [e]] == s.lists[k := [e]];
  }

  lemma Sizes()
    ensures WellFormed(EMPTY) && WellFormed(ONE) && WellFormed(TWO) && Total(EMPTY) == 0 && Total(ONE) == 1 && Total(TWO) == 2
  {
    assert ONE.keys[1..] == [] && TWO.keys[1..] == ["user:b"] && TWO.keys[1..][1..] == [];
  }

  const FULL := Snapshot(THREE.keys, map["user:a" := [Dated(0)], "user:b" := [Dated(1)], "user:c" := []])
  const EVICTED := Snapshot(THREE.keys, map["user:a" := [], "user:b" := [Dated(1)], "user:c" := []])

  lemma EvictsFromFull()
    requires WellFormed(FULL) && Total(FULL) == 2
    ensures EvictOldest(FULL) == EVICTED
  {
    hide Dated, Sum;
    HeadsOf(FULL);
    assert [Dated(0)][1..] == [];
    assert FULL.lists["user:a" := []] == EVICTED.lists;
  }

  /** At the cap the head of "user:a" goes. */
  lemma EvictsHeadOfA()
    ensures WellFormed(TWO) && StoreEntry(TWO, "user:c", Dated(2), 2, 2) == THREE
  {
    hide Dated, WellFormed, Total, EvictOldest, ShrinkBelow;
    Sizes();
    TotalOfOpen(TWO, "user:c");
    assert TWO.lists["user:c" := []] == FULL.lists;
    assert WithinScope(TWO, "user:c", 2) == FULL;
    EvictsFromFull();
    ShrinkStep(FULL, 2);
    ShrinkDone(EVICTED, 2);
    assert MakeRoom(TWO, "user:c", 2, 2) == EVICTED;
    assert [] + [Dated(2)] == [Dated(2)];
    assert EVICTED.lists["user:c" := [Dated(2)]] == THREE.lists;
  }

  lemma HeadsOf(s: Snapshot)
    requires WellFormed(s) && s.keys == ["user:a", "user:b", "user:c"]
    requires s.lists["user:a"] == [Dated(0)] && s.lists["user:b"] == [Dated(1)] && s.lists["user:c"] == []
    ensures OldestKey(s, 3) == Some("user:a")
  {
    assert OldestKey(s, 0) == None;
    assert OldestKey(s, 1) == Some("user:a");
    assert OldestKey(s, 2) == Some("user:a");
  }

  lemma AnsweredInA()
    ensures Searched(AskFor(0), 1.0, [Dated(0)], [Dated(0)], Some(Answer(AskFor(0), Dated(0))))
  {
    var q, l := AskFor(0), [Dated(0)];
    assert ExpiredAt(l, 1.0) == {};
    assert Without(l, {}) == l by {
      assert Kept(l, {}, 1) == [];
    }
    assert IsBest(q, l, Some(0));
    assert CorruptedAbove(q, l, Some(0)) == {};
    assert SearchedVia(q, 1.0, l, l, Some(Answer(q, Dated(0))), Some(0));
  }

  /** The total cap evicts the entry of "user:a", which a search has just answered
      with, and keeps the one of "user:b", which was not used since it was stored. */
  lemma RecencyIsIgnoredInTotal()
    ensures Run([EMPTY, ONE, TWO, TWO, THREE], TotalOps(), 2, 2)
    ensures LastUse(TotalOps(), 1, 3) < LastUse(TotalOps(), 0, 3)
  {
    hide WellFormed, Total, StoreEntry, Searched, LastUse, Next, Dated, AskFor;
    Sizes();
    StoreBelow(EMPTY, "user:a", Dated(0));
    StoreBelow(ONE, "user:b", Dated(1));
    assert [] + ["user:a"] == ["user:a"] && ["user:a"] + ["user:b"] == TWO.keys;
    EvictsHeadOfA();
    AnsweredInA();
    StoreStep(EMPTY, "user:a", Dated(0), 2, 2);
    StoreStep(ONE, "user:b", Dated(1), 2, 2);
    SearchStep(TWO, "user:a", AskFor(0), 1.0, Some(Answer(AskFor(0), Dated(0))), 2, 2);
    StoreStep(TWO, "user:c", Dated(2), 2, 2);
    UsedLast();
  }

  lemma UsedLast()
    ensures LastUse(TotalOps(), 1, 3) < LastUse(TotalOps(), 0, 3)
  {
    var ops := TotalOps();
    assert Uses(ops[2], 0) && !Uses(ops[2], 1);
    assert LastUse(ops, 0, 3) == 3 && LastUse(ops, 1, 3) <= 2;
  }
}
