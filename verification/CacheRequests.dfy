/** The write-generation protocol of the semantic cache, under every
    interleaving of the requests of one event loop.

    One action is the code between two suspension points.  The in-memory
    backend never suspends, so "bump the generation, then invalidate" and
    "check the generation again, then store" are one action each; the only
    suspension inside `store` is the embedding call, between `StoreBegin` and
    `StoreFinish`. */
module CacheRequests {
  import opened Text
  import opened Collections
  import opened CacheStore

  // ---- The cache and one request's watcher, as values ----

  datatype CacheState = CacheState(generation: map<string, nat>, contents: Snapshot)

  /** `write_generation`: the number of write invalidations of a scope so far. */
  function Generation(c: CacheState, scope: Option<string>): nat {
    var key := if scope.Some? then scope.value else "";
    if key in c.generation then c.generation[key] else 0
  }

  datatype Policy = Policy(
    invalidateOnWrite: bool, cacheToolTurns: bool,
    isWrite: string -> bool, gated: set<string>, perScope: nat, cap: nat)

  function InvalidateForWrite(enabled: bool, c: CacheState, scope: Option<string>): CacheState
    requires WellFormed(c.contents)
  {
    if !enabled || scope.None? then c
    else CacheState(c.generation[scope.value := Generation(c, scope) + 1], Invalidate(c.contents, scope.value))
  }

  function InvalidateTimes(enabled: bool, c: CacheState, scope: Option<string>, n: nat): (r: CacheState)
    requires WellFormed(c.contents)
    ensures WellFormed(r.contents)
  {
    if n == 0 then c else InvalidateForWrite(enabled, InvalidateTimes(enabled, c, scope, n - 1), scope)
  }

  datatype Watch = Watch(scope: Option<string>, generation: nat, running: map<nat, string>, toolsCalled: seq<string>)

  function ToolStarted(w: Watch, run: nat, name: string): Watch {
    w.(running := w.running[run := name], toolsCalled := w.toolsCalled + [name])
  }

  function ToolFinished(w: Watch, run: nat): Watch {
    w.(running := w.running - {run})
  }

  /** The write tools found only in the output. */
  function UnseenWrites(isWrite: string -> bool, seen: seq<string>, tools: seq<string>): seq<string> {
    if tools == [] then []
    else
      var n := |tools| - 1;
      UnseenWrites(isWrite, seen, tools[..n])
      + if tools[n] !in seen && isWrite(tools[n]) then [tools[n]] else []
  }

  /** The verdict of `settle`: may this turn's answer be stored? */
  predicate Storable(p: Policy, called: seq<string>) {
    && (forall n :: n in called ==> !p.isWrite(n) && n !in p.gated)
    && (called == [] || p.cacheToolTurns)
  }

  // ---- The system ----

  datatype Phase = Running | Settled(storable: bool) | Embedding | Done

  /** `called` is every tool of the turn once it has settled. */
  datatype Request = Request(watch: Watch, phase: Phase, called: seq<string>)

  /** `arrived` has every request that came in, with its caller's scope; a request is
      in `requests` from the creation of its watcher on. */
  datatype World = World(cache: CacheState, arrived: map<nat, Option<string>>, requests: map<nat, Request>)

  const START := World(CacheState(map[], EMPTY), map[], map[])

  /** `Begin` is the creation of the watcher, which comes after the request's own
      awaits: memory search, strategies, the cache check and context assembly. */
  datatype Action =
    | Arrive(r: nat, scope: Option<string>)
    | Begin(r: nat, scope: Option<string>)
    | ToolStart(r: nat, run: nat, name: string)
    | ToolEnd(r: nat, run: nat)
    | Settle(r: nat, toolsInOutput: seq<string>)
    | StoreBegin(r: nat, hasText: bool)
    | StoreFinish(r: nat, entry: Option<Entry>)
    | Fail(r: nat)
    | Lookup(key: string, query: Query, now: real, found: Option<Entry>)
    | Purge(key: string)

  function WithRequest(w: World, cache: CacheState, r: nat, q: Request): World {
    w.(cache := cache, requests := w.requests[r := q])
  }

  /** What one action does; false when it cannot happen now. */
  ghost predicate Next(p: Policy, w: World, a: Action, w': World)
    requires p.perScope >= 1 && p.cap >= 1
  {
    && WellFormed(w.cache.contents)
    && match a
       case Arrive(r, scope) =>
         && r !in w.arrived && scope != Some("")
         && w' == w.(arrived := w.arrived[r := scope])
       case Begin(r, scope) =>
         && r !in w.requests && r in w.arrived && w.arrived[r] == scope && scope != Some("")
         && w' == WithRequest(w, w.cache, r, Request(Watch(scope, Generation(w.cache, scope), map[], []), Running, []))
       case ToolStart(r, run, name) =>
         && r in w.requests && w.requests[r].phase == Running
         && w' == WithRequest(w, w.cache, r, w.requests[r].(watch := ToolStarted(w.requests[r].watch, run, name)))
       case ToolEnd(r, run) =>
         && r in w.requests
         && var q := w.requests[r];
            var isWrite := run in q.watch.running && p.isWrite(q.watch.running[run]);
            var cache := if isWrite then InvalidateForWrite(p.invalidateOnWrite, w.cache, q.watch.scope) else w.cache;
            w' == WithRequest(w, cache, r, q.(watch := ToolFinished(q.watch, run)))
       case Settle(r, tools) =>
         && r in w.requests && w.requests[r].phase == Running
         && var q := w.requests[r];
            var unseen := UnseenWrites(p.isWrite, q.watch.toolsCalled, tools);
            var called := q.watch.toolsCalled + tools;
            var cache := InvalidateTimes(p.invalidateOnWrite, w.cache, q.watch.scope, |unseen|);
            w' == WithRequest(w, cache, r, q.(phase := Settled(Storable(p, called)), called := called))
       case StoreBegin(r, hasText) =>
         && r in w.requests && w.requests[r].phase == Settled(true)
         && var q := w.requests[r];
            var goOn := q.watch.scope.Some? && hasText && Generation(w.cache, q.watch.scope) == q.watch.generation;
            w' == WithRequest(w, w.cache, r, q.(phase := if goOn then Embedding else Done))
       case StoreFinish(r, entry) =>
         && r in w.requests && w.requests[r].phase == Embedding && w.requests[r].watch.scope.Some?
         && w.requests[r].watch.scope != Some("")
         && (entry.Some? ==> entry.value.output == r)
         && var q := w.requests[r];
            var current := Generation(w.cache, q.watch.scope) == q.watch.generation;
            var cache := if entry.Some? && current
                         then w.cache.(contents := StoreEntry(w.cache.contents, q.watch.scope.value, entry.value, p.perScope, p.cap))
                         else w.cache;
            w' == WithRequest(w, cache, r, q.(phase := Done))
       case Fail(r) =>
         && r in w.requests
         && var q := w.requests[r];
            w' == WithRequest(w, w.cache, r, q.(phase := Done, called := if q.phase == Running then q.watch.toolsCalled else q.called))
       case Lookup(key, q, now, found) =>
         && w'.requests == w.requests && w'.arrived == w.arrived && w'.cache.generation == w.cache.generation
         && WellFormed(w'.cache.contents)
         && Searched(q, now, ListOf(w.cache.contents, key), ListOf(w'.cache.contents, key), found)
         && forall k :: k != key ==> ListOf(w'.cache.contents, k) == ListOf(w.cache.contents, k)
       case Purge(key) =>
         w' == w.(cache := w.cache.(contents := DropScope(w.cache.contents, key)))
  }

  ghost predicate Run(p: Policy, worlds: seq<World>, actions: seq<Action>)
    requires p.perScope >= 1 && p.cap >= 1
  {
    && |worlds| == |actions| + 1 && worlds[0] == START
    && forall i :: 0 <= i < |actions| ==> Next(p, worlds[i], actions[i], worlds[i + 1])
  }

  // ---- The invariant ----

  /** The request an entry came from: it belongs to the entry's scope, read a
      generation that is still current, and its turn was storable. */
  ghost predicate Current(p: Policy, w: World, k: string, e: Entry) {
    && e.output in w.requests
    && var q := w.requests[e.output];
       && q.watch.scope == Some(k)
       && (p.invalidateOnWrite ==> q.watch.generation == Generation(w.cache, Some(k)))
       && q.phase == Done && Storable(p, q.called)
  }

  ghost predicate EntriesCurrent(p: Policy, w: World) {
    forall k, e :: k in w.cache.contents.lists && e in w.cache.contents.lists[k] ==> Current(p, w, k, e)
  }

  ghost predicate RequestsOk(p: Policy, w: World) {
    forall r :: r in w.requests ==>
      var q := w.requests[r];
      && r in w.arrived && w.arrived[r] == q.watch.scope
      && q.watch.scope != Some("")
      && q.watch.generation <= Generation(w.cache, q.watch.scope)
      && (q.phase == Settled(true) || q.phase == Embedding ==> Storable(p, q.called))
  }

  ghost predicate Inv(p: Policy, w: World) {
    WellFormed(w.cache.contents) && EntriesCurrent(p, w) && RequestsOk(p, w)
  }

  /** The lists of `s'` hold nothing that the lists of `s` did not. */
  ghost predicate Shrunk(s: Snapshot, s': Snapshot) {
    forall x, e :: e in ListOf(s', x) ==> e in ListOf(s, x)
  }

  lemma {:induction false} ShrinkBelowShrinks(s: Snapshot, cap: nat)
    requires WellFormed(s) && cap >= 1
    ensures Shrunk(s, ShrinkBelow(s, cap))
    decreases Total(s)
  {
    hide NoDup;
    if Total(s) >= cap {
      SumPositive(s.keys, s.lists);
      var next := EvictOldest(s);
      ShrinkBelowShrinks(next, cap);
      assert Shrunk(s, next);
    }
  }

  lemma StoreAddsOnly(s: Snapshot, k: string, e: Entry, perScope: nat, cap: nat)
    requires WellFormed(s) && k != "" && perScope >= 1 && cap >= 1
    ensures forall x, d :: d in ListOf(StoreEntry(s, k, e, perScope, cap), x) ==> d in ListOf(s, x) || (x == k && d == e)
  {
    hide NoDup, Total;
    var base := OpenScope(s, k);
    var trimmed := WithList(base, k, Newest(base.lists[k], perScope - 1));
    assert Shrunk(base, trimmed);
    ShrinkBelowShrinks(trimmed, cap);
    var room := MakeRoom(s, k, perScope, cap);
    assert room == ShrinkBelow(trimmed, cap);
    assert forall x :: ListOf(base, x) == ListOf(s, x);
    var after := StoreEntry(s, k, e, perScope, cap);
    forall x, d | d in ListOf(after, x)
      ensures d in ListOf(s, x) || (x == k && d == e)
    {
      assert ListOf(after, x) == if x == k then ListOf(room, x) + [e] else ListOf(room, x);
      assert d in ListOf(room, x) || (x == k && d == e);
    }
  }

  lemma Member(s: Snapshot, k: string, e: Entry)
    requires k in s.lists && e in s.lists[k]
    ensures e in ListOf(s, k)
  {
  }

  /** Contents that only shrink keep the invariant when requests do not change. */
  lemma ShrinkKeepsInv(p: Policy, w: World, w': World)
    requires Inv(p, w) && WellFormed(w'.cache.contents) && Shrunk(w.cache.contents, w'.cache.contents)
    requires w'.requests == w.requests && w'.arrived == w.arrived && w'.cache.generation == w.cache.generation
    ensures Inv(p, w')
  {
    forall k, e | k in w'.cache.contents.lists && e in w'.cache.contents.lists[k]
      ensures Current(p, w', k, e)
    {
      Member(w'.cache.contents, k, e);
      assert e in ListOf(w.cache.contents, k);
      assert Current(p, w, k, e);
    }
  }

  /** Bumping a scope's generation and emptying it keeps the invariant. */
  lemma InvalidationKeepsInv(p: Policy, w: World, scope: Option<string>)
    requires Inv(p, w)
    ensures Inv(p, w.(cache := InvalidateForWrite(p.invalidateOnWrite, w.cache, scope)))
  {
    var w' := w.(cache := InvalidateForWrite(p.invalidateOnWrite, w.cache, scope));
    if p.invalidateOnWrite && scope.Some? {
      forall k, e | k in w'.cache.contents.lists && e in w'.cache.contents.lists[k]
        ensures Current(p, w', k, e)
      {
        assert e in ListOf(w'.cache.contents, k);
        assert k != scope.value;
        assert Current(p, w, k, e);
      }
    }
  }

  lemma {:induction false} InvalidationsKeepInv(p: Policy, w: World, scope: Option<string>, n: nat)
    requires Inv(p, w)
    ensures Inv(p, w.(cache := InvalidateTimes(p.invalidateOnWrite, w.cache, scope, n)))
  {
    if n > 0 {
      InvalidationsKeepInv(p, w, scope, n - 1);
      InvalidationKeepsInv(p, w.(cache := InvalidateTimes(p.invalidateOnWrite, w.cache, scope, n - 1)), scope);
    }
  }

  /** Replacing one request that has no entry yet, and stays acceptable. */
  lemma RequestKeepsInv(p: Policy, w: World, r: nat, q: Request)
    requires Inv(p, w)
    requires r in w.requests ==> q.watch.scope == w.requests[r].watch.scope
                                 && q.watch.generation == w.requests[r].watch.generation
                                 && (w.requests[r].phase == Done ==> q.phase == Done && q.called == w.requests[r].called)
    requires q.watch.scope != Some("") && q.watch.generation <= Generation(w.cache, q.watch.scope)
    requires r in w.arrived && w.arrived[r] == q.watch.scope
    requires q.phase == Settled(true) || q.phase == Embedding ==> Storable(p, q.called)
    ensures Inv(p, WithRequest(w, w.cache, r, q))
  {
    var w' := WithRequest(w, w.cache, r, q);
    forall k, e | k in w'.cache.contents.lists && e in w'.cache.contents.lists[k]
      ensures Current(p, w', k, e)
    {
      assert Current(p, w, k, e);
    }
  }

  /** An arrival changes nothing that is there. */
  lemma ArrivalKeepsInv(p: Policy, w: World, w': World)
    requires Inv(p, w) && w' == w.(arrived := w'.arrived)
    requires forall r :: r in w.arrived ==> r in w'.arrived && w'.arrived[r] == w.arrived[r]
    ensures Inv(p, w')
  {
    hide WellFormed, Storable;
    forall k, e | k in w'.cache.contents.lists && e in w'.cache.contents.lists[k]
      ensures Current(p, w', k, e)
    {
      assert Current(p, w, k, e);
    }
  }

  lemma StoreKeepsInv(p: Policy, w: World, r: nat, entry: Entry)
    requires p.perScope >= 1 && p.cap >= 1 && Inv(p, w)
    requires r in w.requests && w.requests[r].phase == Done && w.requests[r].watch.scope.Some?
    requires Storable(p, w.requests[r].called) && entry.output == r
    requires Generation(w.cache, w.requests[r].watch.scope) == w.requests[r].watch.generation
    ensures
      var key := w.requests[r].watch.scope.value;
      key != "" && Inv(p, w.(cache := w.cache.(contents := StoreEntry(w.cache.contents, key, entry, p.perScope, p.cap))))
  {
    hide StoreEntry, WellFormed, Storable;
    var key := w.requests[r].watch.scope.value;
    var w' := w.(cache := w.cache.(contents := StoreEntry(w.cache.contents, key, entry, p.perScope, p.cap)));
    StoreAddsOnly(w.cache.contents, key, entry, p.perScope, p.cap);
    forall k, e | k in w'.cache.contents.lists && e in w'.cache.contents.lists[k]
      ensures Current(p, w', k, e)
    {
      Member(w'.cache.contents, k, e);
      if !(k == key && e == entry) {
        assert e in ListOf(w.cache.contents, k);
        assert Current(p, w, k, e);
      }
    }
  }

  lemma NextKeepsInv(p: Policy, w: World, a: Action, w': World)
    requires p.perScope >= 1 && p.cap >= 1 && Inv(p, w) && Next(p, w, a, w')
    ensures Inv(p, w')
  {
    hide EntriesCurrent, Storable, StoreEntry, UnseenWrites, WellFormed, InvalidateTimes, InvalidateForWrite, DropScope;
    match a {
      case Arrive(r, scope) =>
        ArrivalKeepsInv(p, w, w');
      case Begin(r, scope) =>
        RequestKeepsInv(p, w, r, w'.requests[r]);
      case ToolStart(r, run, name) =>
        RequestKeepsInv(p, w, r, w'.requests[r]);
      case ToolEnd(r, run) =>
        var q := w.requests[r];
        RequestKeepsInv(p, w, r, w'.requests[r]);
        InvalidationKeepsInv(p, WithRequest(w, w.cache, r, w'.requests[r]), q.watch.scope);
      case Settle(r, tools) =>
        var q := w.requests[r];
        RequestKeepsInv(p, w, r, w'.requests[r]);
        InvalidationsKeepInv(p, WithRequest(w, w.cache, r, w'.requests[r]), q.watch.scope,
                             |UnseenWrites(p.isWrite, q.watch.toolsCalled, tools)|);
      case StoreBegin(r, hasText) =>
        RequestKeepsInv(p, w, r, w'.requests[r]);
      case StoreFinish(r, entry) =>
        var q := w.requests[r];
        RequestKeepsInv(p, w, r, w'.requests[r]);
        if entry.Some? && Generation(w.cache, q.watch.scope) == q.watch.generation {
          StoreKeepsInv(p, WithRequest(w, w.cache, r, w'.requests[r]), r, entry.value);
        }
      case Fail(r) =>
        RequestKeepsInv(p, w, r, w'.requests[r]);
      case Lookup(key, q, now, found) =>
        LookupShrinks(w.cache.contents, w'.cache.contents, key, q, now, found);
        ShrinkKeepsInv(p, w, w');
      case Purge(key) =>
        ShrinkKeepsInv(p, w, w');
    }
  }

  lemma LookupShrinks(s: Snapshot, s': Snapshot, key: string, q: Query, now: real, found: Option<Entry>)
    requires Searched(q, now, ListOf(s, key), ListOf(s', key), found)
    requires forall k :: k != key ==> ListOf(s', k) == ListOf(s, k)
    ensures Shrunk(s, s')
  {
    forall x, e | e in ListOf(s', x)
      ensures e in ListOf(s, x)
    {
      if x == key { SearchKeeps(q, now, ListOf(s, key), ListOf(s', key), found, e); }
    }
  }

  /** In every reachable state each cached entry's request read a generation
      equal to its scope's current one, and its turn was storable. */
  lemma {:induction false} RunKeepsInv(p: Policy, worlds: seq<World>, actions: seq<Action>, n: nat)
    requires p.perScope >= 1 && p.cap >= 1 && Run(p, worlds, actions) && n <= |actions|
    ensures Inv(p, worlds[n])
  {
    hide Next, Storable;
    if n > 0 {
      RunKeepsInv(p, worlds, actions, n - 1);
      NextKeepsInv(p, worlds[n - 1], actions[n - 1], worlds[n - 1 + 1]);
    }
  }

  // ---- What never changes along a run ----

  /** Requests keep their scope and the generation they read; generations never go back. */
  ghost predicate Later(w: World, w': World) {
    && (forall k :: Generation(w.cache, k) <= Generation(w'.cache, k))
    && (forall r :: r in w.arrived ==> r in w'.arrived && w'.arrived[r] == w.arrived[r])
    && forall r :: r in w.requests ==>
         && r in w'.requests
         && w'.requests[r].watch.scope == w.requests[r].watch.scope
         && w'.requests[r].watch.generation == w.requests[r].watch.generation
  }

  lemma {:induction false} TimesLater(enabled: bool, c: CacheState, scope: Option<string>, n: nat)
    requires WellFormed(c.contents) && scope != Some("")
    ensures
      var c' := InvalidateTimes(enabled, c, scope, n);
      && (forall k :: Generation(c', k) == Generation(c, k) + if enabled && scope.Some? && k == scope then n else 0)
      && (enabled && scope.Some? && n > 0 ==> ListOf(c'.contents, scope.value) == [])
  {
    hide NoDup, DropScope, RemoveKey;
    if n > 0 { TimesLater(enabled, c, scope, n - 1); }
  }

  lemma OnceLater(enabled: bool, c: CacheState, scope: Option<string>, k: Option<string>)
    requires WellFormed(c.contents) && scope != Some("")
    ensures Generation(c, k) <= Generation(InvalidateForWrite(enabled, c, scope), k)
  {
    hide WellFormed, Invalidate;
  }

  /** An action that replaces one request leaves the others alone. */
  lemma ReplacedLater(w: World, w': World, r: nat)
    requires r in w'.requests && w'.requests == w.requests[r := w'.requests[r]] && w'.arrived == w.arrived
    requires r in w.requests ==> w'.requests[r].watch.scope == w.requests[r].watch.scope
                                 && w'.requests[r].watch.generation == w.requests[r].watch.generation
    requires forall k :: Generation(w.cache, k) <= Generation(w'.cache, k)
    ensures Later(w, w')
    ensures forall q :: q in w'.requests && q !in w.requests ==> q == r
  {
    hide Generation;
  }

  lemma NextLater(p: Policy, w: World, a: Action, w': World)
    requires p.perScope >= 1 && p.cap >= 1 && Next(p, w, a, w') && RequestsOk(p, w)
    ensures Later(w, w')
    ensures forall r :: r in w'.requests && r !in w.requests ==> a == Begin(r, w'.requests[r].watch.scope)
  {
    hide Storable, StoreEntry, UnseenWrites, Searched, DropScope, InvalidateForWrite, InvalidateTimes, WellFormed, Answer, Later;
    if a.Lookup? || a.Purge? || a.Arrive? {
      SameLater(w, w');
    } else {
      if a.Settle? {
        var q := w.requests[a.r];
        TimesLater(p.invalidateOnWrite, w.cache, q.watch.scope, |UnseenWrites(p.isWrite, q.watch.toolsCalled, a.toolsInOutput)|);
      }
      forall k
        ensures Generation(w.cache, k) <= Generation(w'.cache, k)
      {
        if a.ToolEnd? { OnceLater(p.invalidateOnWrite, w.cache, w.requests[a.r].watch.scope, k); }
      }
      ReplacedLater(w, w', a.r);
    }
  }

  lemma SameLater(w: World, w': World)
    requires w'.requests == w.requests && w'.cache.generation == w.cache.generation
    requires forall r :: r in w.arrived ==> r in w'.arrived && w'.arrived[r] == w.arrived[r]
    ensures Later(w, w')
  {
  }

  /** Everything new at step `j` was begun between `i` and `j`. */
  lemma {:induction false} RunLater(p: Policy, worlds: seq<World>, actions: seq<Action>, i: nat, j: nat)
    requires p.perScope >= 1 && p.cap >= 1 && Run(p, worlds, actions) && i <= j <= |actions|
    ensures Later(worlds[i], worlds[j])
    ensures forall r :: r in worlds[j].requests && r !in worlds[i].requests ==>
              exists b :: i <= b < j && actions[b] == Begin(r, worlds[j].requests[r].watch.scope)
    decreases j
  {
    hide Next, Storable;
    if i < j {
      var m := j - 1;
      RunLater(p, worlds, actions, i, m);
      RunKeepsInv(p, worlds, actions, m);
      assert Next(p, worlds[m], actions[m], worlds[m + 1]);
      NextLater(p, worlds[m], actions[m], worlds[m + 1]);
    }
  }

  // ---- Main results ----

  /** No lookup after a write's invalidation returns an answer of a request whose
      watcher was created before it: if step `i` bumps the generation of `key` and
      a later step `j` answers from `key`, the answering request's watcher was
      created after `i`.  What this leaves of a request's own start is in
      CacheArrival. */
  lemma NoStaleAnswer(p: Policy, worlds: seq<World>, actions: seq<Action>, i: nat, j: nat, key: string)
    requires p.perScope >= 1 && p.cap >= 1 && p.invalidateOnWrite && Run(p, worlds, actions)
    requires i < j < |actions|
    requires Generation(worlds[i].cache, Some(key)) < Generation(worlds[i + 1].cache, Some(key))
    requires actions[j].Lookup? && actions[j].key == key && actions[j].found.Some?
    ensures actions[j].found.value.output !in worlds[i + 1].requests
    ensures exists b :: i < b < j && actions[b] == Begin(actions[j].found.value.output, Some(key))
  {
    hide Next, Storable;
    var r, scope := actions[j].found.value.output, Some(key);
    Served(p, worlds, actions, j);
    RunKeepsInv(p, worlds, actions, i);
    RunLater(p, worlds, actions, i, i + 1);
    RunLater(p, worlds, actions, i + 1, j);
    assert worlds[j].requests[r].watch.generation >= Generation(worlds[i + 1].cache, scope);
    BumpBeginsNothing(p, worlds[i], actions[i], worlds[i + 1], scope);
  }

  lemma BumpBeginsNothing(p: Policy, w: World, a: Action, w': World, scope: Option<string>)
    requires p.perScope >= 1 && p.cap >= 1 && Next(p, w, a, w') && RequestsOk(p, w)
    requires Generation(w.cache, scope) < Generation(w'.cache, scope)
    ensures w'.requests.Keys == w.requests.Keys
  {
    hide Storable, StoreEntry, UnseenWrites, InvalidateTimes;
  }

  /** The request behind an answer, at the time of the lookup. */
  lemma Served(p: Policy, worlds: seq<World>, actions: seq<Action>, j: nat)
    requires p.perScope >= 1 && p.cap >= 1 && Run(p, worlds, actions) && j < |actions|
    requires actions[j].Lookup? && actions[j].found.Some?
    ensures
      var r := actions[j].found.value.output;
      && r in worlds[j].requests
      && var q := worlds[j].requests[r];
         && q.watch.scope == Some(actions[j].key) && q.phase == Done && Storable(p, q.called)
         && (p.invalidateOnWrite ==> q.watch.generation == Generation(worlds[j].cache, q.watch.scope))
  {
    hide StoreEntry, InvalidateTimes, Storable;
    var s := worlds[j].cache.contents;
    assert Next(p, worlds[j], actions[j], worlds[j + 1]);
    RunKeepsInv(p, worlds, actions, j);
    var e := ServedEntry(actions[j].query, actions[j].now, ListOf(s, actions[j].key),
                         ListOf(worlds[j + 1].cache.contents, actions[j].key), actions[j].found.value);
    assert Current(p, worlds[j], actions[j].key, e);
  }

  lemma ServedEntry(q: Query, now: real, before: seq<Entry>, after: seq<Entry>, found: Entry) returns (e: Entry)
    requires Searched(q, now, before, after, Some(found))
    ensures e in before && e.output == found.output
  {
    SearchAnswers(q, now, before, after, Some(found));
    e :| e in before && found == Answer(q, e);
    assert Answer(q, e).output == e.output;
  }

  /** What a turn is known to have called: the tools that started and, once it has
      settled, those of its output too. */
  predicate Called(q: Request, t: string) {
    if q.phase == Running then t in q.watch.toolsCalled else t in q.called
  }

  lemma StepKeepsCalled(p: Policy, w: World, a: Action, w': World, r: nat, t: string)
    requires p.perScope >= 1 && p.cap >= 1 && Next(p, w, a, w') && RequestsOk(p, w)
    requires r in w.requests && Called(w.requests[r], t)
    ensures r in w'.requests && Called(w'.requests[r], t)
  {
    hide Storable, StoreEntry, UnseenWrites, Searched, DropScope, InvalidateForWrite, InvalidateTimes, WellFormed, Generation;
  }

  /** A tool that starts, and a tool found in the output, is called. */
  lemma StepCalls(p: Policy, w: World, a: Action, w': World, t: string)
    requires p.perScope >= 1 && p.cap >= 1 && Next(p, w, a, w')
    requires (a.ToolStart? && a.name == t) || (a.Settle? && t in a.toolsInOutput)
    ensures a.r in w'.requests && Called(w'.requests[a.r], t)
  {
    hide Storable, UnseenWrites, InvalidateTimes, WellFormed;
  }

  lemma {:induction false} StaysCalled(p: Policy, worlds: seq<World>, actions: seq<Action>, i: nat, j: nat, t: string)
    requires p.perScope >= 1 && p.cap >= 1 && Run(p, worlds, actions) && i < j <= |actions|
    requires (actions[i].ToolStart? && actions[i].name == t) || (actions[i].Settle? && t in actions[i].toolsInOutput)
    ensures actions[i].r in worlds[j].requests && Called(worlds[j].requests[actions[i].r], t)
    decreases j
  {
    hide Next, Called;
    var m := j - 1;
    assert Next(p, worlds[m], actions[m], worlds[m + 1]);
    if i == m {
      StepCalls(p, worlds[i], actions[i], worlds[j], t);
    } else {
      StaysCalled(p, worlds, actions, i, m, t);
      RunKeepsInv(p, worlds, actions, m);
      StepKeepsCalled(p, worlds[m], actions[m], worlds[j], actions[i].r, t);
    }
  }

  /** Whatever a lookup returns was stored by a turn that called no write tool
      and no approval-gated tool, and no tool at all unless `cache_tool_turns`: none
      that started in the run, and none that was found in the output. */
  lemma ServedTurnsAreSafe(p: Policy, worlds: seq<World>, actions: seq<Action>, i: nat, j: nat, t: string)
    requires p.perScope >= 1 && p.cap >= 1 && Run(p, worlds, actions) && i < j < |actions|
    requires actions[j].Lookup? && actions[j].found.Some?
    requires (actions[i].ToolStart? && actions[i].name == t) || (actions[i].Settle? && t in actions[i].toolsInOutput)
    requires actions[i].r == actions[j].found.value.output
    ensures !p.isWrite(t) && t !in p.gated && p.cacheToolTurns
  {
    hide Next, Generation;
    Served(p, worlds, actions, j);
    StaysCalled(p, worlds, actions, i, j, t);
  }

  lemma SameUpTo(isWrite: string -> bool, seen: seq<string>, tools: seq<string>, n: nat)
    requires n == |tools| - 1
    ensures
      var before := set i: nat | i < |tools[..n]| && tools[..n][i] !in seen && isWrite(tools[..n][i]);
      var after := set i: nat | i < |tools| && tools[i] !in seen && isWrite(tools[i]);
      |after| == |before| + if tools[n] !in seen && isWrite(tools[n]) then 1 else 0
  {
    var before := set i: nat | i < |tools[..n]| && tools[..n][i] !in seen && isWrite(tools[..n][i]);
    var after := set i: nat | i < |tools| && tools[i] !in seen && isWrite(tools[i]);
    forall i: nat
      ensures i in after <==> i in before || (i == n && tools[n] !in seen && isWrite(tools[n]))
    {
    }
    assert after == before + if tools[n] !in seen && isWrite(tools[n]) then {n} else {};
  }

  /** The write tools found only in the output, counted by position. */
  lemma {:induction false} UnseenCount(isWrite: string -> bool, seen: seq<string>, tools: seq<string>)
    ensures |UnseenWrites(isWrite, seen, tools)| == |set i: nat | i < |tools| && tools[i] !in seen && isWrite(tools[i])|
  {
    var unseen := set i: nat | i < |tools| && tools[i] !in seen && isWrite(tools[i]);
    if tools == [] {
      assert unseen == {};
    } else {
      var n := |tools| - 1;
      UnseenCount(isWrite, seen, tools[..n]);
      SameUpTo(isWrite, seen, tools, n);
    }
  }

  /** Invalidating `n` times adds `n` to the generation of the one scope, empties it
      unless `n` is 0, and touches nothing else. */
  lemma TimesExactly(enabled: bool, c: CacheState, scope: Option<string>, n: nat)
    requires WellFormed(c.contents) && scope != Some("")
    ensures
      var after := InvalidateTimes(enabled, c, scope, n);
      if n == 0 || !enabled || scope.None? then after == c
      else
        && Generation(after, scope) == Generation(c, scope) + n && ListOf(after.contents, scope.value) == []
        && forall k :: k != scope.value ==>
             Generation(after, Some(k)) == Generation(c, Some(k)) && ListOf(after.contents, k) == ListOf(c.contents, k)
  {
    hide WellFormed, DropScope, Generation;
    TimesLater(enabled, c, scope, n);
    TimesOthers(enabled, c, scope, n);
  }

  lemma {:induction false} TimesOthers(enabled: bool, c: CacheState, scope: Option<string>, n: nat)
    requires WellFormed(c.contents)
    ensures
      var after := InvalidateTimes(enabled, c, scope, n);
      && (!enabled || scope.None? ==> after == c)
      && (scope.Some? ==> forall k :: k != scope.value ==> ListOf(after.contents, k) == ListOf(c.contents, k))
  {
    hide WellFormed, DropScope;
    if n > 0 { TimesOthers(enabled, c, scope, n - 1); }
  }

  /** Settling bumps the caller's generation once for every write tool that was found
      only in the output, before the verdict, and then nothing of the scope is left;
      without such a tool it leaves the cache alone.  Any of them refuses the turn. */
  lemma SettleInvalidates(p: Policy, w: World, r: nat, tools: seq<string>, w': World)
    requires p.perScope >= 1 && p.cap >= 1 && Next(p, w, Settle(r, tools), w') && RequestsOk(p, w)
    ensures
      var watch := w.requests[r].watch;
      var unseen := set i: nat | i < |tools| && tools[i] !in watch.toolsCalled && p.isWrite(tools[i]);
      && (unseen == {} || !p.invalidateOnWrite || watch.scope.None? ==> w'.cache == w.cache)
      && (unseen != {} && p.invalidateOnWrite && watch.scope.Some? ==>
            && Generation(w'.cache, watch.scope) == Generation(w.cache, watch.scope) + |unseen|
            && ListOf(w'.cache.contents, watch.scope.value) == []
            && forall k :: k != watch.scope.value ==>
                 Generation(w'.cache, Some(k)) == Generation(w.cache, Some(k))
                 && ListOf(w'.cache.contents, k) == ListOf(w.cache.contents, k))
      && (unseen != {} ==> w'.requests[r].phase == Settled(false))
  {
    hide Generation, InvalidateTimes, WellFormed, ListOf;
    var q := w.requests[r];
    var n := |UnseenWrites(p.isWrite, q.watch.toolsCalled, tools)|;
    var unseen := set i: nat | i < |tools| && tools[i] !in q.watch.toolsCalled && p.isWrite(tools[i]);
    UnseenCount(p.isWrite, q.watch.toolsCalled, tools);
    TimesExactly(p.invalidateOnWrite, w.cache, q.watch.scope, n);
    if unseen != {} {
      var i :| i in unseen;
      assert (q.watch.toolsCalled + tools)[|q.watch.toolsCalled| + i] == tools[i];
    }
  }

  /** A write tool that ends or fails bumps the caller's generation once and empties
      the scope; any other end of a tool leaves the cache alone. */
  lemma ToolEndInvalidates(p: Policy, w: World, r: nat, run: nat, w': World)
    requires p.perScope >= 1 && p.cap >= 1 && Next(p, w, ToolEnd(r, run), w') && RequestsOk(p, w)
    ensures
      var watch := w.requests[r].watch;
      if run in watch.running && p.isWrite(watch.running[run]) && p.invalidateOnWrite && watch.scope.Some? then
        && Generation(w'.cache, watch.scope) == Generation(w.cache, watch.scope) + 1
        && ListOf(w'.cache.contents, watch.scope.value) == []
      else w'.cache == w.cache
  {
    hide InvalidateTimes, WellFormed, ListOf, Storable;
  }
}
