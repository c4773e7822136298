/** Eviction is first in, first out: a search never reorders a scope, so while
    the clock does not run backwards every list stays in creation order and
    every eviction takes a globally oldest entry. */
module CacheOrder {
  import opened Text
  import opened Collections
  import opened CacheStore

  predicate Sorted(l: seq<Entry>) {
    forall i, j :: 0 <= i < j < |l| ==> l[i].createdAt <= l[j].createdAt
  }

  ghost predicate ListOk(l: seq<Entry>, now: real) {
    Sorted(l) && forall i :: 0 <= i < |l| ==> l[i].createdAt <= now
  }

  /** Every scope is in creation order, and nothing was created after `now`. */
  ghost predicate InOrder(s: Snapshot, now: real) {
    && WellFormed(s)
    && forall k :: k in s.lists ==> ListOk(s.lists[k], now)
  }

  lemma {:induction false} KeptSorted(l: seq<Entry>, drop: set<nat>, from: nat)
    requires from <= |l| && Sorted(l)
    ensures Sorted(Kept(l, drop, from))
    ensures forall p :: 0 <= p < |Kept(l, drop, from)| ==> exists i :: from <= i < |l| && l[i] == Kept(l, drop, from)[p]
    decreases |l| - from
  {
    if from < |l| {
      KeptSorted(l, drop, from + 1);
    }
  }

  /** The operations of the backend; `InvalidateTools` is `invalidate` with a pattern. */
  datatype Op =
    | Store(key: string, entry: Entry)
    | Search(key: string, query: Query, now: real, found: Option<Entry>)
    | Invalidate(key: string)
    | InvalidateTools(key: string, drop: set<nat>)
    | Purge(key: string)

  /** `list` replaces the list of `k`, if there is one, and nothing else changes. */
  ghost predicate OnlyList(s: Snapshot, s': Snapshot, k: string, list: seq<Entry>)
    requires WellFormed(s)
  {
    s' == if k in s.lists then WithList(s, k, list) else s
  }

  ghost predicate Next(s: Snapshot, op: Op, s': Snapshot, perScope: nat, cap: nat)
    requires perScope >= 1 && cap >= 1
  {
    && WellFormed(s)
    && match op
       case Store(k, e) => k != "" && s' == StoreEntry(s, k, e, perScope, cap)
       case Search(k, q, now, found) =>
         && OnlyList(s, s', k, ListOf(s', k))
         && Searched(q, now, ListOf(s, k), ListOf(s', k), found)
       case Invalidate(k) => s' == CacheStore.Invalidate(s, k)
       case InvalidateTools(k, drop) => OnlyList(s, s', k, Without(ListOf(s, k), drop))
       case Purge(k) => s' == DropScope(s, k)
  }

  function Clock(op: Op, now: real): real {
    if op.Store? then op.entry.createdAt else now
  }

  // ---- Eviction takes a minimum ----

  /** The entry a global eviction removes is the first of its scope and no
      entry of any scope is older. */
  lemma EvictionIsOldest(s: Snapshot, now: real)
    requires InOrder(s, now) && Total(s) > 0
    ensures
      var k := OldestKey(s, |s.keys|);
      && k.Some? && s.lists[k.value] != []
      && EvictOldest(s) == WithList(s, k.value, s.lists[k.value][1..])
      && forall x, i :: x in s.lists && 0 <= i < |s.lists[x]| ==> Head(s, k.value) <= s.lists[x][i].createdAt
  {
    SumPositive(s.keys, s.lists);
    var k := OldestKey(s, |s.keys|).value;
    forall x, i | x in s.lists && 0 <= i < |s.lists[x]|
      ensures Head(s, k) <= s.lists[x][i].createdAt
    {
      assert x in s.keys;
      var n :| 0 <= n < |s.keys| && s.keys[n] == x;
      assert Head(s, k) <= Head(s, s.keys[n]) <= s.lists[x][i].createdAt;
    }
  }

  lemma EvictInOrder(s: Snapshot, now: real)
    requires InOrder(s, now) && Total(s) > 0
    ensures InOrder(EvictOldest(s), now)
  {
    hide NoDup, Total, ListOk;
    EvictionIsOldest(s, now);
    var k := OldestKey(s, |s.keys|).value;
    ListTail(s.lists[k], now);
    WithListInOrder(s, k, s.lists[k][1..], now);
  }

  lemma ListTail(l: seq<Entry>, now: real)
    requires ListOk(l, now) && l != []
    ensures ListOk(l[1..], now)
  {
  }

  lemma {:induction false} ShrinkInOrder(s: Snapshot, cap: nat, now: real)
    requires InOrder(s, now) && cap >= 1
    ensures InOrder(ShrinkBelow(s, cap), now)
    decreases Total(s)
  {
    hide ListOk, NoDup, EvictOldest, Sum;
    if Total(s) >= cap {
      EvictInOrder(s, now);
      ShrinkInOrder(EvictOldest(s), cap, now);
    }
  }

  // ---- Every operation keeps the order ----

  lemma StoreInOrder(s: Snapshot, k: string, e: Entry, perScope: nat, cap: nat, now: real)
    requires InOrder(s, now) && now <= e.createdAt && k != "" && perScope >= 1 && cap >= 1
    ensures InOrder(StoreEntry(s, k, e, perScope, cap), e.createdAt)
  {
    hide WellFormed, Total, ListOk;
    var base := OpenScope(s, k);
    OpenInOrder(s, k, now);
    ListInOrder(base, k, now);
    ListTrim(base.lists[k], perScope - 1, now);
    WithListInOrder(base, k, Newest(base.lists[k], perScope - 1), now);
    var trimmed := WithList(base, k, Newest(base.lists[k], perScope - 1));
    ShrinkInOrder(trimmed, cap, now);
    var room := ShrinkBelow(trimmed, cap);
    Later(room, now, e.createdAt);
    ListInOrder(room, k, e.createdAt);
    ListAppend(room.lists[k], e);
    WithListInOrder(room, k, room.lists[k] + [e], e.createdAt);
  }

  lemma ListTrim(l: seq<Entry>, n: nat, now: real)
    requires ListOk(l, now)
    ensures ListOk(Newest(l, n), now)
  {
  }

  lemma ListAppend(l: seq<Entry>, e: Entry)
    requires ListOk(l, e.createdAt)
    ensures ListOk(l + [e], e.createdAt)
  {
  }

  lemma OpenInOrder(s: Snapshot, k: string, now: real)
    requires InOrder(s, now) && k != ""
    ensures InOrder(OpenScope(s, k), now)
  {
    var base := OpenScope(s, k);
    assert forall x :: x in base.lists ==> base.lists[x] == ListOf(s, x);
  }

  lemma ListInOrder(s: Snapshot, k: string, now: real)
    requires InOrder(s, now) && k in s.lists
    ensures ListOk(s.lists[k], now)
  {
  }

  lemma Later(s: Snapshot, now: real, now': real)
    requires InOrder(s, now) && now <= now'
    ensures InOrder(s, now')
  {
  }

  lemma WithListInOrder(s: Snapshot, k: string, l: seq<Entry>, now: real)
    requires InOrder(s, now) && k in s.lists && ListOk(l, now)
    ensures InOrder(WithList(s, k, l), now)
  {
  }

  lemma SearchInOrder(l: seq<Entry>, l': seq<Entry>, q: Query, t: real, found: Option<Entry>, now: real)
    requires ListOk(l, now) && Searched(q, t, l, l', found)
    ensures ListOk(l', now)
  {
    var best: Option<nat> :| SearchedVia(q, t, l, l', found, best);
    KeptSorted(l, ExpiredAt(l, t), 0);
    KeptSorted(Live(l, t), CorruptedAbove(q, Live(l, t), best), 0);
  }

  lemma NextInOrder(s: Snapshot, op: Op, s': Snapshot, perScope: nat, cap: nat, now: real)
    requires perScope >= 1 && cap >= 1 && Next(s, op, s', perScope, cap)
    requires InOrder(s, now) && now <= Clock(op, now)
    ensures InOrder(s', Clock(op, now))
  {
    match op {
      case Store(k, e) => StoreInOrder(s, k, e, perScope, cap, now);
      case Search(k, q, t, found) =>
        SearchInOrder(ListOf(s, k), ListOf(s', k), q, t, found, now);
      case Invalidate(k) =>
        assert forall x :: x in s'.lists ==> s'.lists[x] == ListOf(s', x) && (ListOf(s', x) == ListOf(s, x) || x == k);
      case InvalidateTools(k, drop) => KeptSorted(ListOf(s, k), drop, 0);
      case Purge(k) =>
        assert forall x :: x in s'.lists ==> s'.lists[x] == ListOf(s, x);
    }
  }

  lemma EmptyInOrder(now: real)
    ensures InOrder(EMPTY, now)
  {
  }

  /** A run of the backend from empty. */
  ghost predicate Run(states: seq<Snapshot>, ops: seq<Op>, perScope: nat, cap: nat)
    requires perScope >= 1 && cap >= 1
  {
    && |states| == |ops| + 1 && states[0] == EMPTY
    && forall i :: 0 <= i < |ops| ==> Next(states[i], ops[i], states[i + 1], perScope, cap)
  }

  /** The creation times of the stores never decrease; `clock[i]` is the latest
      before operation i. */
  ghost predicate Monotone(ops: seq<Op>, clock: seq<real>) {
    && |clock| == |ops| + 1
    && forall i :: 0 <= i < |ops| ==> clock[i] <= clock[i + 1] == Clock(ops[i], clock[i])
  }

  lemma {:induction false} RunInOrder(states: seq<Snapshot>, ops: seq<Op>, clock: seq<real>, n: nat, perScope: nat, cap: nat)
    requires perScope >= 1 && cap >= 1 && Run(states, ops, perScope, cap) && Monotone(ops, clock)
    requires n <= |ops|
    ensures InOrder(states[n], clock[n])
  {
    hide InOrder, Next;
    EmptyInOrder(clock[0]);
    if n > 0 {
      RunInOrder(states, ops, clock, n - 1, perScope, cap);
      var i := n - 1;
      assert clock[i] <= clock[i + 1] == Clock(ops[i], clock[i]) && Next(states[i], ops[i], states[i + 1], perScope, cap);
      NextInOrder(states[n - 1], ops[n - 1], states[n], perScope, cap, clock[n - 1]);
    }
  }

  // ---- Stores alone: each scope is a suffix of what was stored in it ----

  function History(ops: seq<Op>, k: string): seq<Entry> {
    if ops == [] then []
    else
      var last := ops[|ops| - 1];
      History(ops[..|ops| - 1], k) + if last.Store? && last.key == k then [last.entry] else []
  }

  /** With stores only, and the total cap never in the way, each scope holds
      exactly the newest `perScope` entries ever stored in it. */
  lemma {:induction false} StoresKeepNewest(states: seq<Snapshot>, ops: seq<Op>, k: string, perScope: nat, cap: nat)
    requires perScope >= 1 && cap >= 1 && Run(states, ops, perScope, cap)
    requires forall i :: 0 <= i < |ops| ==> ops[i].Store? && WellFormed(states[i]) && Total(states[i]) < cap
    ensures ListOf(states[|ops|], k) == Newest(History(ops, k), perScope)
  {
    hide WellFormed, Total, StoreEntry, Next, Newest;
    if ops == [] {
      NewestNothing(perScope);
    } else {
      var n := |ops| - 1;
      var s, op := states[n], ops[n];
      RunPrefix(states, ops, perScope, cap);
      StorePermitted(s, op, states[n + 1], perScope, cap);
      StoresKeepNewest(states[..n + 1], ops[..n], k, perScope, cap);
      StoreWithRoom(s, op.key, op.entry, perScope, cap, k);
      NewestAppend(History(ops[..n], k), op.entry, perScope);
    }
  }

  lemma RunPrefix(states: seq<Snapshot>, ops: seq<Op>, perScope: nat, cap: nat)
    requires perScope >= 1 && cap >= 1 && Run(states, ops, perScope, cap) && ops != []
    ensures Run(states[..|ops|], ops[..|ops| - 1], perScope, cap)
    ensures Next(states[|ops| - 1], ops[|ops| - 1], states[|ops|], perScope, cap)
  {
    hide Next;
    var n := |ops| - 1;
    assert Next(states[n], ops[n], states[n + 1], perScope, cap);
  }

  lemma NewestNothing(n: nat)
    ensures Newest<Entry>([], n) == []
  {
  }

  /** Making room and appending keeps the newest of the longer history. */
  lemma NewestAppend(l: seq<Entry>, e: Entry, n: nat)
    requires n >= 1
    ensures Newest(Newest(l, n), n - 1) + [e] == Newest(l + [e], n)
    ensures l + [] == l
  {
  }

  lemma StorePermitted(s: Snapshot, op: Op, s': Snapshot, perScope: nat, cap: nat)
    requires perScope >= 1 && cap >= 1 && op.Store? && Next(s, op, s', perScope, cap)
    ensures WellFormed(s) && op.key != "" && s' == StoreEntry(s, op.key, op.entry, perScope, cap)
  {
  }

  lemma StoreWithRoom(s: Snapshot, key: string, e: Entry, perScope: nat, cap: nat, k: string)
    requires WellFormed(s) && key != "" && perScope >= 1 && cap >= 1 && Total(s) < cap
    ensures ListOf(StoreEntry(s, key, e, perScope, cap), k)
         == if k == key then Newest(ListOf(s, k), perScope - 1) + [e] else ListOf(s, k)
  {
    var base := OpenScope(s, key);
    var trimmed := WithList(base, key, Newest(base.lists[key], perScope - 1));
    assert ShrinkBelow(trimmed, cap) == trimmed;
    assert ListOf(base, k) == ListOf(s, k);
  }
}
