/** First in, first out against least recently used: searches do not move entries,
    so the entry a full scope evicts is the oldest, and the least recently used one
    only under an exact condition on the searches. */
module CacheRecency {
  import opened Text
  import opened Collections
  import opened CacheStore
  import opened CacheOrder
  import opened CacheEviction

  // An entry is identified by its `output`, the number of the request that produced it.

  predicate Stores(op: Op, r: nat) { op.Store? && op.entry.output == r }

  predicate Answers(op: Op, r: nat) { op.Search? && op.found.Some? && op.found.value.output == r }

  predicate Uses(op: Op, r: nat) { Stores(op, r) || Answers(op, r) }

  /** One past the last of the first `n` operations that stored `r`; 0 if none did. */
  function StoredAt(ops: seq<Op>, r: nat, n: nat): (t: nat)
    requires n <= |ops|
    ensures t <= n && (t > 0 ==> Stores(ops[t - 1], r))
  {
    if n == 0 then 0 else if Stores(ops[n - 1], r) then n else StoredAt(ops, r, n - 1)
  }

  /** One past the last of the first `n` operations that stored or answered `r`. */
  function LastUse(ops: seq<Op>, r: nat, n: nat): (t: nat)
    requires n <= |ops|
    ensures t <= n && (t > 0 ==> Uses(ops[t - 1], r))
  {
    if n == 0 then 0 else if Uses(ops[n - 1], r) then n else LastUse(ops, r, n - 1)
  }

  lemma {:induction false} LastUseIsLast(ops: seq<Op>, r: nat, n: nat, i: nat)
    requires i < n <= |ops| && Uses(ops[i], r)
    ensures LastUse(ops, r, n) > i
  {
    if i < n - 1 { LastUseIsLast(ops, r, n - 1, i); }
  }

  /** A request's answer is stored once. */
  ghost predicate StoredOnce(ops: seq<Op>) {
    forall i, j :: 0 <= i < j < |ops| && ops[i].Store? && ops[j].Store? ==> ops[i].entry.output != ops[j].entry.output
  }

  // ---- Lists are in the order of their stores ----

  /** The last of the first `n` operations that stored the entry stored just this one,
      in this scope. */
  ghost predicate StoredIn(ops: seq<Op>, n: nat, x: string, e: Entry)
    requires n <= |ops|
  {
    var t := StoredAt(ops, e.output, n);
    t > 0 && ops[t - 1] == Store(x, e)
  }

  ghost predicate ByStore(ops: seq<Op>, n: nat, x: string, l: seq<Entry>)
    requires n <= |ops|
  {
    && (forall i :: 0 <= i < |l| ==> StoredIn(ops, n, x, l[i]))
    && (forall i, j :: 0 <= i < j < |l| ==> StoredAt(ops, l[i].output, n) < StoredAt(ops, l[j].output, n))
  }

  lemma NothingByStore(ops: seq<Op>, n: nat, x: string)
    requires n <= |ops|
    ensures ByStore(ops, n, x, [])
  {
  }

  lemma ConsByStore(ops: seq<Op>, n: nat, x: string, e: Entry, rest: seq<Entry>)
    requires n <= |ops| && StoredIn(ops, n, x, e) && ByStore(ops, n, x, rest)
    requires forall p :: 0 <= p < |rest| ==> StoredAt(ops, e.output, n) < StoredAt(ops, rest[p].output, n)
    ensures ByStore(ops, n, x, [e] + rest)
  {
    hide StoredAt;
  }

  lemma ByStoreAt(ops: seq<Op>, n: nat, x: string, l: seq<Entry>, i: nat, j: nat)
    requires n <= |ops| && i < j < |l| && ByStore(ops, n, x, l)
    ensures StoredAt(ops, l[i].output, n) < StoredAt(ops, l[j].output, n)
  {
    hide StoredAt;
  }

  lemma {:induction false} KeptByStore(ops: seq<Op>, n: nat, x: string, l: seq<Entry>, drop: set<nat>, from: nat)
    requires n <= |ops| && from <= |l| && ByStore(ops, n, x, l)
    ensures ByStore(ops, n, x, Kept(l, drop, from))
    decreases |l| - from
  {
    hide StoredAt, ByStore;
    if from == |l| {
      NothingByStore(ops, n, x);
    } else {
      KeptByStore(ops, n, x, l, drop, from + 1);
      var rest := Kept(l, drop, from + 1);
      assert [] + rest == rest;
      if from !in drop { KeptHead(ops, n, x, l, drop, from); }
    }
  }

  lemma KeptHead(ops: seq<Op>, n: nat, x: string, l: seq<Entry>, drop: set<nat>, from: nat)
    requires n <= |ops| && from < |l| && ByStore(ops, n, x, l) && ByStore(ops, n, x, Kept(l, drop, from + 1))
    ensures ByStore(ops, n, x, [l[from]] + Kept(l, drop, from + 1))
  {
    hide StoredAt, Kept;
    var rest := Kept(l, drop, from + 1);
    forall p | 0 <= p < |rest|
      ensures StoredAt(ops, l[from].output, n) < StoredAt(ops, rest[p].output, n)
    {
      var i := KeptOrigin(l, drop, from + 1, p);
      ByStoreAt(ops, n, x, l, from, i);
    }
    ConsByStore(ops, n, x, l[from], rest);
  }

  lemma SuffixByStore(ops: seq<Op>, n: nat, x: string, a: seq<Entry>, b: seq<Entry>)
    requires n <= |ops| && SuffixOf(a, b) && ByStore(ops, n, x, b)
    ensures ByStore(ops, n, x, a)
  {
    hide StoredAt;
  }

  /** An operation that stores nothing moves no store time. */
  lemma OtherOp(ops: seq<Op>, n: nat, x: string, l: seq<Entry>)
    requires n < |ops| && !ops[n].Store? && ByStore(ops, n, x, l)
    ensures ByStore(ops, n + 1, x, l)
  {
    assert forall r :: StoredAt(ops, r, n + 1) == StoredAt(ops, r, n);
    hide StoredAt;
  }

  /** A store moves only the time of its own entry. */
  lemma StoreOp(ops: seq<Op>, n: nat, x: string, l: seq<Entry>)
    requires n < |ops| && ops[n].Store? && StoredOnce(ops) && ByStore(ops, n, x, l)
    ensures ByStore(ops, n + 1, x, l) && (ops[n].key == x ==> ByStore(ops, n + 1, x, l + [ops[n].entry]))
  {
    var e := ops[n].entry;
    forall i | 0 <= i < |l|
      ensures StoredAt(ops, l[i].output, n + 1) == StoredAt(ops, l[i].output, n) <= n
    {
      var t := StoredAt(ops, l[i].output, n);
      assert Stores(ops[t - 1], l[i].output);
    }
    assert StoredAt(ops, e.output, n + 1) == n + 1;
  }

  lemma SearchByStore(ops: seq<Op>, n: nat, x: string, q: Query, now: real, l: seq<Entry>, l': seq<Entry>, found: Option<Entry>)
    requires n <= |ops| && ByStore(ops, n, x, l) && Searched(q, now, l, l', found)
    ensures ByStore(ops, n, x, l')
  {
    hide StoredAt, ByStore;
    var best: Option<nat> :| SearchedVia(q, now, l, l', found, best);
    KeptByStore(ops, n, x, l, ExpiredAt(l, now), 0);
    KeptByStore(ops, n, x, Live(l, now), CorruptedAbove(q, Live(l, now), best), 0);
  }

  lemma StoreByStore(s: Snapshot, ops: seq<Op>, n: nat, k: string, e: Entry, perScope: nat, cap: nat, x: string)
    requires n < |ops| && ops[n] == Store(k, e) && StoredOnce(ops)
    requires WellFormed(s) && k != "" && perScope >= 1 && cap >= 1
    requires ByStore(ops, n, x, ListOf(s, x))
    ensures ByStore(ops, n + 1, x, ListOf(StoreEntry(s, k, e, perScope, cap), x))
  {
    hide WellFormed, Total, ByStore, SuffixOf, StoreEntry, ListOf, Remaining, StoredOnce;
    StoreMeetsCaps(s, k, e, perScope, cap, x);
    var left := Remaining(s, k, perScope, cap, x);
    SuffixByStore(ops, n, x, left, ListOf(s, x));
    StoreOp(ops, n, x, left);
    assert left + [] == left;
  }

  /** One operation keeps every list in the order of its stores. */
  lemma NextByStore(s: Snapshot, ops: seq<Op>, n: nat, s': Snapshot, perScope: nat, cap: nat, x: string)
    requires n < |ops| && perScope >= 1 && cap >= 1 && StoredOnce(ops) && Next(s, ops[n], s', perScope, cap)
    requires ByStore(ops, n, x, ListOf(s, x))
    ensures ByStore(ops, n + 1, x, ListOf(s', x))
  {
    hide ByStore, StoreEntry, Searched, Sum, NoDup, StoredOnce, DropScope, Kept;
    NothingByStore(ops, n, x);
    match ops[n] {
      case Store(k, e) => StoreByStore(s, ops, n, k, e, perScope, cap, x);
      case Search(k, q, t, found) =>
        if x == k { SearchByStore(ops, n, x, q, t, ListOf(s, k), ListOf(s', k), found); }
        OtherOp(ops, n, x, ListOf(s', x));
      case Invalidate(k) => OtherOp(ops, n, x, ListOf(s', x));
      case InvalidateTools(k, drop) =>
        if x == k { KeptByStore(ops, n, x, ListOf(s, k), drop, 0); }
        OtherOp(ops, n, x, ListOf(s', x));
      case Purge(k) => OtherOp(ops, n, x, ListOf(s', x));
    }
  }

  lemma {:induction false} RunByStore(states: seq<Snapshot>, ops: seq<Op>, perScope: nat, cap: nat, n: nat, x: string)
    requires perScope >= 1 && cap >= 1 && Run(states, ops, perScope, cap) && StoredOnce(ops) && n <= |ops|
    ensures ByStore(ops, n, x, ListOf(states[n], x))
  {
    hide Next, ByStore, StoredOnce;
    if n == 0 {
      NothingByStore(ops, 0, x);
    } else {
      RunByStore(states, ops, perScope, cap, n - 1, x);
      var i := n - 1;
      assert Next(states[i], ops[i], states[i + 1], perScope, cap);
      NextByStore(states[i], ops, i, states[n], perScope, cap, x);
    }
  }

  // ---- When the evicted entry is the least recently used one ----

  /** Every other entry of the list was used later than the first. */
  ghost predicate FirstIsLru(ops: seq<Op>, n: nat, l: seq<Entry>)
    requires n <= |ops| && l != []
  {
    forall j :: 0 < j < |l| ==> LastUse(ops, l[0].output, n) < LastUse(ops, l[j].output, n)
  }

  /** No search answered with the first entry after a younger one was last stored or
      answered. */
  ghost predicate NotPreferred(ops: seq<Op>, n: nat, l: seq<Entry>)
    requires n <= |ops| && l != []
  {
    forall i, j :: 0 <= i < n && Answers(ops[i], l[0].output) && 0 < j < |l| ==> UsedAfter(ops, n, l[j].output, i)
  }

  ghost predicate UsedAfter(ops: seq<Op>, n: nat, r: nat, i: nat)
    requires n <= |ops|
  {
    exists m :: i < m < n && Uses(ops[m], r)
  }

  /** The entry a full scope evicts is its least recently used one if and only if no
      search answered with it after a younger entry was last stored or answered. */
  lemma EvictsLruExactly(states: seq<Snapshot>, ops: seq<Op>, perScope: nat, cap: nat, n: nat, k: string)
    requires perScope >= 1 && cap >= 1 && Run(states, ops, perScope, cap) && StoredOnce(ops) && n <= |ops|
    requires ListOf(states[n], k) != []
    ensures FirstIsLru(ops, n, ListOf(states[n], k)) <==> NotPreferred(ops, n, ListOf(states[n], k))
  {
    hide Next, StoredOnce, ByStore, FirstIsLru, NotPreferred, ListOf;
    var l := ListOf(states[n], k);
    RunByStore(states, ops, perScope, cap, n, k);
    if NotPreferred(ops, n, l) { LruIfNotPreferred(ops, n, k, l); }
    if FirstIsLru(ops, n, l) { NotPreferredIfLru(ops, n, l); }
  }

  lemma LruIfNotPreferred(ops: seq<Op>, n: nat, x: string, l: seq<Entry>)
    requires n <= |ops| && l != [] && ByStore(ops, n, x, l) && NotPreferred(ops, n, l)
    ensures FirstIsLru(ops, n, l)
  {
    hide ByStore, NotPreferred, LastUse;
    forall j | 0 < j < |l|
      ensures LastUse(ops, l[0].output, n) < LastUse(ops, l[j].output, n)
    {
      UsedLater(ops, n, x, l, j);
    }
  }

  lemma NotPreferredIfLru(ops: seq<Op>, n: nat, l: seq<Entry>)
    requires n <= |ops| && l != [] && FirstIsLru(ops, n, l)
    ensures NotPreferred(ops, n, l)
  {
    forall i, j | 0 <= i < n && Answers(ops[i], l[0].output) && 0 < j < |l|
      ensures UsedAfter(ops, n, l[j].output, i)
    {
      LastUseIsLast(ops, l[0].output, n, i);
      assert Uses(ops[LastUse(ops, l[j].output, n) - 1], l[j].output);
    }
  }

  lemma UsedLater(ops: seq<Op>, n: nat, x: string, l: seq<Entry>, j: nat)
    requires n <= |ops| && 0 < j < |l| && ByStore(ops, n, x, l) && NotPreferred(ops, n, l)
    ensures LastUse(ops, l[0].output, n) < LastUse(ops, l[j].output, n)
  {
    var h, r := l[0].output, l[j].output;
    var t, u := LastUse(ops, h, n), StoredAt(ops, r, n);
    assert StoredAt(ops, h, n) < u;
    LastUseIsLast(ops, r, n, u - 1);
    if t > 0 && Answers(ops[t - 1], h) {
      assert UsedAfter(ops, n, r, t - 1);
      var m :| t - 1 < m < n && Uses(ops[m], r);
      LastUseIsLast(ops, r, n, m);
    } else if t > 0 {
      StoredAtIsLast(ops, h, n, t - 1);
    }
  }

  /** One entry was used before another exactly when every use of it came before some
      use of the other. */
  lemma UsedBeforeExactly(ops: seq<Op>, n: nat, h: nat, r: nat)
    requires n <= |ops| && LastUse(ops, h, n) > 0
    ensures LastUse(ops, h, n) < LastUse(ops, r, n) <==> forall i :: 0 <= i < n && Uses(ops[i], h) ==> UsedAfter(ops, n, r, i)
  {
    var t, u := LastUse(ops, h, n), LastUse(ops, r, n);
    if t < u {
      forall i | 0 <= i < n && Uses(ops[i], h)
        ensures UsedAfter(ops, n, r, i)
      {
        LastUseIsLast(ops, h, n, i);
        assert Uses(ops[u - 1], r);
      }
    } else if UsedAfter(ops, n, r, t - 1) {
      var m :| t - 1 < m < n && Uses(ops[m], r);
      LastUseIsLast(ops, r, n, m);
    }
  }

  lemma {:induction false} StoredAtIsLast(ops: seq<Op>, r: nat, n: nat, i: nat)
    requires i < n <= |ops| && Stores(ops[i], r)
    ensures StoredAt(ops, r, n) > i
  {
    if i < n - 1 { StoredAtIsLast(ops, r, n - 1, i); }
  }

  // ---- A run in which first in, first out is not least recently used ----

  const PLAIN := Library((v: Vec) => v, (a: Vec, b: Vec) => 0.0, (s: string) => s)

  function Plain(r: nat): Entry { Entry("q", "a", r, [], "user:u", "", "", "", "a", 0.0, 1, [], None) }

  function AskFor(r: nat): Query { Query(PLAIN, [], 0.0, (e: Entry) => e.output == r) }

  /** Store 0, store 1, answer with 0, store 2. */
  function RecencyOps(): seq<Op> {
    [Store("user:u", Plain(0)), Store("user:u", Plain(1)),
     Search("user:u", AskFor(0), 0.0, Some(Answer(AskFor(0), Plain(0)))), Store("user:u", Plain(2))]
  }

  lemma StoreInRoom(s: Snapshot, e: Entry, l: seq<Entry>) returns (s': Snapshot)
    requires WellFormed(s) && Total(s) < 3 && ListOf(s, "user:u") == l
    ensures s' == StoreEntry(s, "user:u", e, 2, 10) && WellFormed(s') && Total(s') <= Total(s) + 1
    ensures ListOf(s', "user:u") == Newest(l, 1) + [e]
    ensures "user:u" in s'.lists
  {
    hide WellFormed, Total;
    s' := StoreEntry(s, "user:u", e, 2, 10);
    StoreWithRoom(s, "user:u", e, 2, 10, "user:u");
    var base := OpenScope(s, "user:u");
    var trimmed := WithList(base, "user:u", Newest(base.lists["user:u"], 1));
    ShrinkDone(trimmed, 10);
  }

  lemma AnsweredFirst()
    ensures
      var l := [Plain(0), Plain(1)];
      Searched(AskFor(0), 0.0, l, l, Some(Answer(AskFor(0), Plain(0))))
  {
    var q, l := AskFor(0), [Plain(0), Plain(1)];
    assert ExpiredAt(l, 0.0) == {};
    assert Without(l, {}) == l by {
      assert Kept(l, {}, 2) == [];
      assert Kept(l, {}, 1) == [Plain(1)] + Kept(l, {}, 2);
    }
    assert Live(l, 0.0) == l;
    assert IsBest(q, l, Some(0));
    assert CorruptedAbove(q, l, Some(0)) == {};
    assert SearchedVia(q, 0.0, l, l, Some(Answer(q, Plain(0))), Some(0));
  }

  lemma StoreStep(s: Snapshot, k: string, e: Entry, perScope: nat, cap: nat)
    requires WellFormed(s) && k != "" && perScope >= 1 && cap >= 1
    ensures Next(s, Store(k, e), StoreEntry(s, k, e, perScope, cap), perScope, cap)
  {
  }

  /** A search that removes nothing. */
  lemma SearchStep(s: Snapshot, k: string, q: Query, now: real, found: Option<Entry>, perScope: nat, cap: nat)
    requires WellFormed(s) && k in s.lists && perScope >= 1 && cap >= 1
    requires Searched(q, now, ListOf(s, k), ListOf(s, k), found)
    ensures Next(s, Search(k, q, now, found), s, perScope, cap)
  {
    hide Searched;
    assert s.lists[k := s.lists[k]] == s.lists;
  }

  /** A search answers with the oldest entry, and the next store evicts just that one,
      although the other one was used before it. */
  lemma RecencyIsIgnored() returns (states: seq<Snapshot>)
    ensures Run(states, RecencyOps(), 2, 10) && StoredOnce(RecencyOps())
    ensures ListOf(states[3], "user:u") == [Plain(0), Plain(1)] && ListOf(states[4], "user:u") == [Plain(1), Plain(2)]
    ensures !FirstIsLru(RecencyOps(), 3, ListOf(states[3], "user:u"))
  {
    hide WellFormed, Total, Searched, StoreEntry, FirstIsLru, AskFor, Plain, StoredOnce, Next;
    EmptyTotal();
    var s1 := StoreInRoom(EMPTY, Plain(0), []);
    var s2 := StoreInRoom(s1, Plain(1), [Plain(0)]);
    var s4 := StoreInRoom(s2, Plain(2), [Plain(0), Plain(1)]);
    states := [EMPTY, s1, s2, s2, s4];
    AnsweredFirst();
    StoreStep(EMPTY, "user:u", Plain(0), 2, 10);
    StoreStep(s1, "user:u", Plain(1), 2, 10);
    SearchStep(s2, "user:u", AskFor(0), 0.0, Some(Answer(AskFor(0), Plain(0))), 2, 10);
    StoreStep(s2, "user:u", Plain(2), 2, 10);
    NotLru();
  }

  lemma EmptyTotal()
    ensures WellFormed(EMPTY) && Total(EMPTY) == 0
  {
  }

  lemma NotLru()
    ensures StoredOnce(RecencyOps()) && !FirstIsLru(RecencyOps(), 3, [Plain(0), Plain(1)])
  {
    var ops, l := RecencyOps(), [Plain(0), Plain(1)];
    assert Uses(ops[2], 0) && !Uses(ops[2], 1);
    assert LastUse(ops, 0, 3) == 3 && LastUse(ops, 1, 3) <= 2;
    assert l[0].output == 0 && l[1].output == 1;
  }
}
