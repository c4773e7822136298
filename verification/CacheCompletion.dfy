/** Continuations of the cache protocol from any state: what they keep, and how a
    request that may still store its answer goes on to store it. */
module CacheCompletion {
  import opened Text
  import opened Collections
  import opened CacheStore
  import opened CacheRequests

  ghost predicate Continues(p: Policy, w: World, worlds: seq<World>, actions: seq<Action>)
    requires p.perScope >= 1 && p.cap >= 1
  {
    && |worlds| == |actions| + 1 && worlds[0] == w
    && forall i :: 0 <= i < |actions| ==> Next(p, worlds[i], actions[i], worlds[i + 1])
  }

  lemma {:induction false} ContinuesKeepsInv(p: Policy, w: World, worlds: seq<World>, actions: seq<Action>, n: nat)
    requires p.perScope >= 1 && p.cap >= 1 && Inv(p, w) && Continues(p, w, worlds, actions) && n <= |actions|
    ensures Inv(p, worlds[n])
  {
    hide Next, Inv;
    if n > 0 {
      ContinuesKeepsInv(p, w, worlds, actions, n - 1);
      assert Next(p, worlds[n - 1], actions[n - 1], worlds[n - 1 + 1]);
      NextKeepsInv(p, worlds[n - 1], actions[n - 1], worlds[n]);
    }
  }

  /** A continuation after one more action. */
  lemma After(p: Policy, w: World, a: Action, next: World, worlds: seq<World>, actions: seq<Action>)
    requires p.perScope >= 1 && p.cap >= 1 && Next(p, w, a, next) && Continues(p, next, worlds, actions)
    ensures Continues(p, w, [w] + worlds, [a] + actions)
  {
    hide Next;
    var longer, steps := [w] + worlds, [a] + actions;
    forall i | 0 <= i < |steps|
      ensures Next(p, longer[i], steps[i], longer[i + 1])
    {
      if i > 0 { assert Next(p, worlds[i - 1], actions[i - 1], worlds[i - 1 + 1]); }
    }
  }

  /** `r` belongs to the partition and no write has landed since its watcher. */
  predicate UpToDate(w: World, r: nat, key: string) {
    && r in w.requests && key != "" && w.requests[r].watch.scope == Some(key)
    && w.requests[r].watch.generation == Generation(w.cache, Some(key))
  }

  lemma CompletesEmbedding(p: Policy, w: World, r: nat, key: string, e: Entry) returns (worlds: seq<World>)
    requires p.perScope >= 1 && p.cap >= 1 && WellFormed(w.cache.contents)
    requires UpToDate(w, r, key) && w.requests[r].phase == Embedding && e.output == r
    ensures Continues(p, w, worlds, [StoreFinish(r, Some(e))]) && e in ListOf(worlds[1].cache.contents, key)
  {
    hide StoreEntry, WellFormed;
    var q := w.requests[r];
    var cache := w.cache.(contents := StoreEntry(w.cache.contents, key, e, p.perScope, p.cap));
    var next := WithRequest(w, cache, r, q.(phase := Done));
    assert Next(p, w, StoreFinish(r, Some(e)), next);
    StoredIsThere(w.cache.contents, key, e, p.perScope, p.cap);
    worlds := [w, next];
  }

  lemma CompletesSettled(p: Policy, w: World, r: nat, key: string, e: Entry) returns (worlds: seq<World>)
    requires p.perScope >= 1 && p.cap >= 1 && WellFormed(w.cache.contents)
    requires UpToDate(w, r, key) && w.requests[r].phase == Settled(true) && e.output == r
    ensures Continues(p, w, worlds, [StoreBegin(r, true), StoreFinish(r, Some(e))]) && e in ListOf(worlds[2].cache.contents, key)
  {
    hide WellFormed, Continues;
    var next := WithRequest(w, w.cache, r, w.requests[r].(phase := Embedding));
    assert Next(p, w, StoreBegin(r, true), next);
    var rest := CompletesEmbedding(p, next, r, key, e);
    After(p, w, StoreBegin(r, true), next, rest, [StoreFinish(r, Some(e))]);
    assert [StoreBegin(r, true)] + [StoreFinish(r, Some(e))] == [StoreBegin(r, true), StoreFinish(r, Some(e))];
    worlds := [w] + rest;
  }

  function RunningActions(r: nat, e: Entry): seq<Action> {
    [Settle(r, []), StoreBegin(r, true), StoreFinish(r, Some(e))]
  }

  lemma CompletesRunning(p: Policy, w: World, r: nat, key: string, e: Entry) returns (worlds: seq<World>)
    requires p.perScope >= 1 && p.cap >= 1 && WellFormed(w.cache.contents)
    requires UpToDate(w, r, key) && w.requests[r].phase == Running && Storable(p, w.requests[r].watch.toolsCalled) && e.output == r
    ensures Continues(p, w, worlds, RunningActions(r, e)) && e in ListOf(worlds[3].cache.contents, key)
  {
    hide WellFormed, Storable, Continues;
    var q := w.requests[r];
    var next := WithRequest(w, w.cache, r, q.(phase := Settled(true), called := q.watch.toolsCalled));
    assert q.watch.toolsCalled + [] == q.watch.toolsCalled;
    assert Next(p, w, Settle(r, []), next);
    var rest := CompletesSettled(p, next, r, key, e);
    var last := [StoreBegin(r, true), StoreFinish(r, Some(e))];
    After(p, w, Settle(r, []), next, rest, last);
    assert [Settle(r, [])] + last == RunningActions(r, e);
    worlds := [w] + rest;
  }

  /** One that arrived but has no watcher yet gets a fresh one. */
  lemma CompletesArrived(p: Policy, w: World, r: nat, key: string, e: Entry) returns (worlds: seq<World>)
    requires p.perScope >= 1 && p.cap >= 1 && WellFormed(w.cache.contents)
    requires r in w.arrived && r !in w.requests && w.arrived[r] == Some(key) && key != "" && e.output == r
    ensures Continues(p, w, worlds, [Begin(r, Some(key))] + RunningActions(r, e)) && e in ListOf(worlds[4].cache.contents, key)
  {
    hide WellFormed, Continues;
    var scope: Option<string> := Some(key);
    var next := WithRequest(w, w.cache, r, Request(Watch(scope, Generation(w.cache, scope), map[], []), Running, []));
    assert Next(p, w, Begin(r, scope), next);
    var rest := CompletesRunning(p, next, r, key, e);
    After(p, w, Begin(r, scope), next, rest, RunningActions(r, e));
    worlds := [w] + rest;
  }
}
