/** What a purge guarantees along a run.  It bumps no generation, so a request that
    came in before it can put its answer into the emptied partition; which requests
    can is stated exactly. */
module CachePurge {
  import opened Text
  import opened Collections
  import opened CacheStore
  import opened CacheRequests
  import opened CacheCompletion

  lemma {:induction false} TimesShrink(enabled: bool, c: CacheState, scope: Option<string>, n: nat, k: string, e: Entry)
    requires WellFormed(c.contents) && e in ListOf(InvalidateTimes(enabled, c, scope, n).contents, k)
    ensures e in ListOf(c.contents, k)
  {
    hide WellFormed, DropScope;
    if n > 0 { TimesShrink(enabled, c, scope, n - 1, k, e); }
  }

  /** Only the last step of a store adds to a scope, and it adds its own answer. */
  lemma AddedByStore(p: Policy, w: World, a: Action, w': World, k: string, e: Entry)
    requires p.perScope >= 1 && p.cap >= 1 && Next(p, w, a, w')
    requires e in ListOf(w'.cache.contents, k) && e !in ListOf(w.cache.contents, k)
    ensures a == StoreFinish(e.output, Some(e))
    ensures UpToDate(w, e.output, k) && w.requests[e.output].phase == Embedding
  {
    hide WellFormed, StoreEntry, ListOf, DropScope, UnseenWrites, Storable, Searched, Generation, Invalidate;
    var s := w.cache.contents;
    match a {
      case Begin(r, scope) =>
      case ToolStart(r, run, name) =>
      case ToolEnd(r, run) => OnceShrinks(p.invalidateOnWrite, w.cache, w.requests[r].watch.scope, k, e);
      case Settle(r, tools) =>
        var q := w.requests[r];
        var n := |UnseenWrites(p.isWrite, q.watch.toolsCalled, tools)|;
        if e in ListOf(w'.cache.contents, k) { TimesShrink(p.invalidateOnWrite, w.cache, q.watch.scope, n, k, e); }
      case StoreBegin(r, hasText) =>
      case StoreFinish(r, entry) =>
        if entry.Some? { StoreAddsOnly(s, w.requests[r].watch.scope.value, entry.value, p.perScope, p.cap); }
      case Fail(r) =>
      case Lookup(key, q, now, found) =>
        LookupShrinks(s, w'.cache.contents, key, q, now, found);
      case Purge(key) =>
    }
  }

  lemma OnceShrinks(enabled: bool, c: CacheState, scope: Option<string>, k: string, e: Entry)
    requires WellFormed(c.contents)
    ensures e in ListOf(InvalidateForWrite(enabled, c, scope).contents, k) ==> e in ListOf(c.contents, k)
  {
    hide WellFormed, DropScope;
  }

  /** What is in a scope that was once empty was stored since. */
  lemma {:induction false} StoredSince(p: Policy, w: World, worlds: seq<World>, actions: seq<Action>, i: nat, j: nat, key: string, e: Entry)
    returns (b: nat)
    requires p.perScope >= 1 && p.cap >= 1 && Continues(p, w, worlds, actions) && i <= j <= |actions|
    requires ListOf(worlds[i].cache.contents, key) == [] && e in ListOf(worlds[j].cache.contents, key)
    ensures i <= b < j && actions[b] == StoreFinish(e.output, Some(e))
    ensures UpToDate(worlds[b], e.output, key) && worlds[b].requests[e.output].phase == Embedding
    decreases j
  {
    hide Next, UpToDate;
    assert i < j;
    var m := j - 1;
    assert Next(p, worlds[m], actions[m], worlds[m + 1]);
    if e in ListOf(worlds[m].cache.contents, key) {
      b := StoredSince(p, w, worlds, actions, i, m, key, e);
    } else {
      AddedByStore(p, worlds[m], actions[m], worlds[j], key, e);
      b := m;
    }
  }

  /** An answer served from a partition after its purge was stored after the purge. */
  lemma ServedAfterPurge(p: Policy, worlds: seq<World>, actions: seq<Action>, i: nat, j: nat, key: string) returns (b: nat)
    requires p.perScope >= 1 && p.cap >= 1 && Run(p, worlds, actions) && i < j < |actions|
    requires actions[i] == Purge(key) && actions[j].Lookup? && actions[j].key == key && actions[j].found.Some?
    ensures i < b < j && actions[b].StoreFinish? && actions[b].r == actions[j].found.value.output && actions[b].entry.Some?
  {
    hide StoreEntry, Searched;
    assert Next(p, worlds[i], actions[i], worlds[i + 1]);
    assert Next(p, worlds[j], actions[j], worlds[j + 1]);
    var e := ServedEntry(actions[j].query, actions[j].now, ListOf(worlds[j].cache.contents, key),
                         ListOf(worlds[j + 1].cache.contents, key), actions[j].found.value);
    b := StoredSince(p, START, worlds, actions, i + 1, j, key, e);
  }

  // ---- Which requests can put an answer back ----

  /** A turn that may be stored as far as it is known. */
  predicate MayStore(p: Policy, q: Request) {
    match q.phase
    case Running => Storable(p, q.watch.toolsCalled)
    case Settled(storable) => storable
    case Embedding => true
    case Done => false
  }

  /** A request that can still store in the partition: one without a watcher yet, or
      one that no write has outdated and whose turn may be stored. */
  predicate CanStore(p: Policy, w: World, r: nat, key: string) {
    if r !in w.requests then r in w.arrived && w.arrived[r] == Some(key) && key != ""
    else UpToDate(w, r, key) && MayStore(p, w.requests[r])
  }

  lemma StorableBefore(p: Policy, called: seq<string>, more: seq<string>)
    requires Storable(p, called + more)
    ensures Storable(p, called)
  {
    assert forall n :: n in called ==> n in called + more;
  }

  /** A step only takes away from what a turn may do. */
  lemma MightStore(p: Policy, w: World, a: Action, w': World, r: nat)
    requires p.perScope >= 1 && p.cap >= 1 && Next(p, w, a, w') && r in w.requests && r in w'.requests
    requires MayStore(p, w'.requests[r])
    ensures MayStore(p, w.requests[r])
  {
    hide StoreEntry, Searched, DropScope, InvalidateForWrite, InvalidateTimes, WellFormed, UnseenWrites, Storable, ListOf, Generation;
    var q := w.requests[r];
    if a.ToolStart? && a.r == r { StorableBefore(p, q.watch.toolsCalled, [a.name]); }
    if a.Settle? && a.r == r { StorableBefore(p, q.watch.toolsCalled, a.toolsInOutput); }
  }

  lemma WasUpToDate(p: Policy, w: World, w': World, r: nat, key: string)
    requires Later(w, w') && RequestsOk(p, w) && r in w.requests && UpToDate(w', r, key)
    ensures UpToDate(w, r, key)
  {
    hide Storable;
  }

  /** No step lets a request store that could not before. */
  lemma CouldStore(p: Policy, w: World, a: Action, w': World, r: nat, key: string)
    requires p.perScope >= 1 && p.cap >= 1 && Inv(p, w) && Next(p, w, a, w')
    requires r in w.arrived && CanStore(p, w', r, key)
    ensures CanStore(p, w, r, key)
  {
    hide Next, UpToDate, MayStore, EntriesCurrent, RequestsOk;
    NextLater(p, w, a, w');
    if r in w.requests {
      WasUpToDate(p, w, w', r, key);
      MightStore(p, w, a, w', r);
    } else if r in w'.requests {
      Began(p, w, a, w', r, key);
    }
  }

  lemma Began(p: Policy, w: World, a: Action, w': World, r: nat, key: string)
    requires p.perScope >= 1 && p.cap >= 1 && Next(p, w, a, w')
    requires r in w.arrived && UpToDate(w', r, key) && a == Begin(r, w'.requests[r].watch.scope)
    ensures w.arrived[r] == Some(key) && key != ""
  {
  }

  lemma {:induction false} CouldAlwaysStore(p: Policy, w: World, worlds: seq<World>, actions: seq<Action>, n: nat, r: nat, key: string)
    requires p.perScope >= 1 && p.cap >= 1 && Inv(p, w) && Continues(p, w, worlds, actions) && n <= |actions|
    requires r in w.arrived
    ensures r in worlds[n].arrived && (CanStore(p, worlds[n], r, key) ==> CanStore(p, w, r, key))
  {
    hide Next, Inv, CanStore;
    if n > 0 {
      var m := n - 1;
      CouldAlwaysStore(p, w, worlds, actions, m, r, key);
      ContinuesKeepsInv(p, w, worlds, actions, m);
      assert Next(p, worlds[m], actions[m], worlds[m + 1]);
      StaysArrived(p, worlds[m], actions[m], worlds[n], r);
      if CanStore(p, worlds[n], r, key) { CouldStore(p, worlds[m], actions[m], worlds[n], r, key); }
    }
  }

  lemma StaysArrived(p: Policy, w: World, a: Action, w': World, r: nat)
    requires p.perScope >= 1 && p.cap >= 1 && Inv(p, w) && Next(p, w, a, w') && r in w.arrived
    ensures r in w'.arrived
  {
    hide Next;
    NextLater(p, w, a, w');
  }

  ghost predicate HasAnswer(w: World, key: string, r: nat) {
    exists e :: e in ListOf(w.cache.contents, key) && e.output == r
  }

  /** Some continuation leaves an answer of `r` in the partition. */
  ghost predicate Refills(p: Policy, w: World, r: nat, key: string)
    requires p.perScope >= 1 && p.cap >= 1
  {
    exists worlds: seq<World>, actions: seq<Action> :: Continues(p, w, worlds, actions) && HasAnswer(worlds[|actions|], key, r)
  }

  lemma RefilledCouldStore(p: Policy, w: World, r: nat, key: string)
    requires p.perScope >= 1 && p.cap >= 1 && Inv(p, w) && r in w.arrived
    requires ListOf(w.cache.contents, key) == [] && Refills(p, w, r, key)
    ensures CanStore(p, w, r, key)
  {
    hide Next, Inv, UpToDate, ListOf;
    var worlds: seq<World>, actions: seq<Action> :| Continues(p, w, worlds, actions) && HasAnswer(worlds[|actions|], key, r);
    var e :| e in ListOf(worlds[|actions|].cache.contents, key) && e.output == r;
    var b := StoredSince(p, w, worlds, actions, 0, |actions|, key, e);
    assert r in worlds[b].requests by { UpToDateBegan(worlds[b], r, key); }
    CouldAlwaysStore(p, w, worlds, actions, b, r, key);
  }

  lemma UpToDateBegan(w: World, r: nat, key: string)
    requires UpToDate(w, r, key)
    ensures r in w.requests
  {
  }

  lemma RefillsVia(p: Policy, w: World, r: nat, key: string, worlds: seq<World>, actions: seq<Action>, e: Entry)
    requires p.perScope >= 1 && p.cap >= 1 && Continues(p, w, worlds, actions)
    requires e in ListOf(worlds[|actions|].cache.contents, key) && e.output == r
    ensures Refills(p, w, r, key)
  {
    hide Next;
    assert HasAnswer(worlds[|actions|], key, r);
  }

  lemma StorerRefills(p: Policy, w: World, r: nat, key: string)
    requires p.perScope >= 1 && p.cap >= 1 && WellFormed(w.cache.contents) && CanStore(p, w, r, key)
    ensures Refills(p, w, r, key)
  {
    hide WellFormed, Storable, Continues, ListOf, Refills;
    var e := Entry("q", "a", r, [], key, "", "", "", "", 0.0, 0, [], None);
    if r !in w.requests {
      var worlds := CompletesArrived(p, w, r, key, e);
      RefillsVia(p, w, r, key, worlds, [Begin(r, Some(key))] + RunningActions(r, e), e);
    } else if w.requests[r].phase == Running {
      var worlds := CompletesRunning(p, w, r, key, e);
      RefillsVia(p, w, r, key, worlds, RunningActions(r, e), e);
    } else if w.requests[r].phase == Embedding {
      var worlds := CompletesEmbedding(p, w, r, key, e);
      RefillsVia(p, w, r, key, worlds, [StoreFinish(r, Some(e))], e);
    } else {
      var worlds := CompletesSettled(p, w, r, key, e);
      RefillsVia(p, w, r, key, worlds, [StoreBegin(r, true), StoreFinish(r, Some(e))], e);
    }
  }

  /** Exactly which request's answer can come back after a purge: one that could store
      when the purge came. */
  lemma RefillIsExact(p: Policy, w: World, key: string, purged: World, r: nat)
    requires p.perScope >= 1 && p.cap >= 1 && Inv(p, w) && Next(p, w, Purge(key), purged) && r in w.arrived
    ensures Refills(p, purged, r, key) <==> CanStore(p, w, r, key)
  {
    hide Refills;
    PurgedState(p, w, key, purged, r);
    if Refills(p, purged, r, key) { RefilledCouldStore(p, purged, r, key); }
    if CanStore(p, purged, r, key) { StorerRefills(p, purged, r, key); }
  }

  lemma PurgedState(p: Policy, w: World, key: string, purged: World, r: nat)
    requires p.perScope >= 1 && p.cap >= 1 && Inv(p, w) && Next(p, w, Purge(key), purged)
    ensures Inv(p, purged) && WellFormed(purged.cache.contents) && ListOf(purged.cache.contents, key) == []
    ensures purged.arrived == w.arrived && CanStore(p, purged, r, key) == CanStore(p, w, r, key)
  {
    NextKeepsInv(p, w, Purge(key), purged);
  }

  /** A purge is final, as the documentation promises, if and only if no request that
      came in before it can still store in the partition. */
  lemma PurgeIsFinal(p: Policy, w: World, key: string, purged: World)
    requires p.perScope >= 1 && p.cap >= 1 && Inv(p, w) && Next(p, w, Purge(key), purged)
    ensures (forall r :: r in w.arrived ==> !Refills(p, purged, r, key))
       <==> (forall r :: r in w.arrived ==> !CanStore(p, w, r, key))
  {
    hide Refills, CanStore, Next, Inv;
    forall r | r in w.arrived
      ensures Refills(p, purged, r, key) <==> CanStore(p, w, r, key)
    {
      RefillIsExact(p, w, key, purged, r);
    }
  }

  /** A request that arrived and nothing more, and then a purge: not final. */
  lemma PurgeIsOvertaken(p: Policy, key: string) returns (worlds: seq<World>)
    requires p.perScope >= 1 && p.cap >= 1 && key != ""
    ensures Run(p, worlds, [Arrive(0, Some(key)), Purge(key)])
    ensures Refills(p, worlds[2], 0, key)
  {
    hide Refills;
    var scope: Option<string> := Some(key);
    var w := World(START.cache, map[0 := scope], map[]);
    worlds := [START, w, w];
    assert Next(p, START, Arrive(0, scope), w);
    assert Next(p, w, Purge(key), w);
    StorerRefills(p, w, 0, key);
  }
}
