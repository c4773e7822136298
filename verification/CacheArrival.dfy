/** From a request's arrival instead of its watcher: a write that lands between the
    two is missed, and only such a write. */
module CacheArrival {
  import opened Text
  import opened Collections
  import opened CacheStore
  import opened CacheRequests
  import opened CacheCompletion

  /** No write invalidated `key` from step `i` up to step `j`. */
  ghost predicate NoWrite(worlds: seq<World>, key: string, i: nat, j: nat)
    requires i <= j < |worlds|
  {
    forall n :: i <= n < j ==> Generation(worlds[n + 1].cache, Some(key)) == Generation(worlds[n].cache, Some(key))
  }

  lemma {:induction false} NoWriteIsSame(p: Policy, worlds: seq<World>, actions: seq<Action>, key: string, i: nat, j: nat)
    requires p.perScope >= 1 && p.cap >= 1 && Run(p, worlds, actions) && i <= j <= |actions|
    ensures NoWrite(worlds, key, i, j) <==> Generation(worlds[i].cache, Some(key)) == Generation(worlds[j].cache, Some(key))
    ensures Generation(worlds[i].cache, Some(key)) <= Generation(worlds[j].cache, Some(key))
    decreases j
  {
    hide Next, Generation;
    if i < j {
      var m := j - 1;
      NoWriteIsSame(p, worlds, actions, key, i, m);
      RunLater(p, worlds, actions, m, j);
      assert NoWrite(worlds, key, i, j) <==>
        NoWrite(worlds, key, i, m) && Generation(worlds[m + 1].cache, Some(key)) == Generation(worlds[m].cache, Some(key));
    }
  }

  /** The watcher of `r`, created at step `b`, is there from then on and not before,
      and the request arrived before it. */
  lemma BeginsOnce(p: Policy, worlds: seq<World>, actions: seq<Action>, a: nat, b: nat, j: nat, r: nat, key: string)
    requires p.perScope >= 1 && p.cap >= 1 && Run(p, worlds, actions) && a < |actions| && b < |actions| && j <= |actions|
    requires actions[a] == Arrive(r, Some(key)) && actions[b] == Begin(r, Some(key)) && r in worlds[j].requests
    ensures a < b < j && worlds[j].requests[r].watch.generation == Generation(worlds[b].cache, Some(key))
  {
    hide StoreEntry, Searched, Storable, InvalidateTimes, UnseenWrites;
    assert Next(p, worlds[a], actions[a], worlds[a + 1]);
    assert Next(p, worlds[b], actions[b], worlds[b + 1]);
    if j <= b {
      RunLater(p, worlds, actions, j, b);
      assert false;
    }
    if b < a {
      RunLater(p, worlds, actions, b, a);
      assert false;
    }
    RunLater(p, worlds, actions, b + 1, j);
  }

  /** What the documentation promises of an answer in the cache, that no write has
      landed since its request started, holds if and only if none landed before the
      request's watcher was created. */
  lemma CachedSinceArrival(p: Policy, worlds: seq<World>, actions: seq<Action>, a: nat, b: nat, j: nat, key: string, e: Entry)
    requires p.perScope >= 1 && p.cap >= 1 && p.invalidateOnWrite && Run(p, worlds, actions)
    requires a < |actions| && b < |actions| && j <= |actions|
    requires actions[a] == Arrive(e.output, Some(key)) && actions[b] == Begin(e.output, Some(key))
    requires e in ListOf(worlds[j].cache.contents, key)
    ensures a < b < j && (NoWrite(worlds, key, a, j) <==> NoWrite(worlds, key, a, b))
  {
    hide Next, Generation, Storable, NoWrite;
    RunKeepsInv(p, worlds, actions, j);
    assert Current(p, worlds[j], key, e);
    BeginsOnce(p, worlds, actions, a, b, j, e.output, key);
    NoWriteIsSame(p, worlds, actions, key, a, j);
    NoWriteIsSame(p, worlds, actions, key, a, b);
  }

  /** The same of an answer that is served. */
  lemma ServedSinceArrival(p: Policy, worlds: seq<World>, actions: seq<Action>, a: nat, b: nat, j: nat, key: string, r: nat)
    requires p.perScope >= 1 && p.cap >= 1 && p.invalidateOnWrite && Run(p, worlds, actions)
    requires a < |actions| && b < |actions| && j < |actions|
    requires actions[a] == Arrive(r, Some(key)) && actions[b] == Begin(r, Some(key))
    requires actions[j].Lookup? && actions[j].key == key && actions[j].found.Some? && actions[j].found.value.output == r
    ensures a < b < j && (NoWrite(worlds, key, a, j) <==> NoWrite(worlds, key, a, b))
  {
    hide StoreEntry, Searched, InvalidateTimes, Storable, NoWrite, Generation;
    assert Next(p, worlds[j], actions[j], worlds[j + 1]);
    var e := ServedEntry(actions[j].query, actions[j].now, ListOf(worlds[j].cache.contents, key),
                         ListOf(worlds[j + 1].cache.contents, key), actions[j].found.value);
    CachedSinceArrival(p, worlds, actions, a, b, j, key, e);
  }

  // ---- The write that is missed ----

  /** Two requests arrive; the second runs a write tool before the first has a watcher. */
  function WriteActions(key: string, write: string): seq<Action> {
    [Arrive(0, Some(key)), Arrive(1, Some(key)), Begin(1, Some(key)), ToolStart(1, 0, write), ToolEnd(1, 0)]
  }

  function Missed(key: string, write: string, e: Entry): seq<Action> {
    WriteActions(key, write) + ([Begin(0, Some(key))] + RunningActions(0, e))
  }

  lemma RunThen(p: Policy, worlds: seq<World>, actions: seq<Action>, more: seq<World>, then_: seq<Action>)
    requires p.perScope >= 1 && p.cap >= 1 && Run(p, worlds, actions) && Continues(p, worlds[|actions|], more, then_)
    ensures Run(p, worlds + more[1..], actions + then_)
  {
    hide Next;
    var all, steps := worlds + more[1..], actions + then_;
    forall i | 0 <= i < |steps|
      ensures Next(p, all[i], steps[i], all[i + 1])
    {
      if i < |actions| {
        assert Next(p, worlds[i], actions[i], worlds[i + 1]);
      } else {
        var k := i - |actions|;
        assert Next(p, more[k], then_[k], more[k + 1]);
      }
    }
  }

  lemma WriteLands(p: Policy, key: string, write: string) returns (worlds: seq<World>)
    requires p.perScope >= 1 && p.cap >= 1 && p.invalidateOnWrite && p.isWrite(write) && key != ""
    ensures Run(p, worlds, WriteActions(key, write))
    ensures Generation(worlds[4].cache, Some(key)) < Generation(worlds[5].cache, Some(key))
    ensures 0 in worlds[5].arrived && worlds[5].arrived[0] == Some(key) && 0 !in worlds[5].requests
    ensures WellFormed(worlds[5].cache.contents)
  {
    hide Sum, DropScope;
    var actions := WriteActions(key, write);
    var scope: Option<string> := Some(key);
    var came := map[0 := scope, 1 := scope];
    var before, after := CacheState(map[], EMPTY), CacheState(map[key := 1], EMPTY);
    var other := Request(Watch(scope, 0, map[], []), Running, []);
    var busy := Request(Watch(scope, 0, map[0 := write], [write]), Running, []);
    var idle := Request(Watch(scope, 0, map[], [write]), Running, []);
    var w1 := World(before, map[0 := scope], map[]);
    var w2 := World(before, came, map[]);
    var w3 := World(before, came, map[1 := other]);
    var w4 := World(before, came, map[1 := busy]);
    var w5 := World(after, came, map[1 := idle]);
    worlds := [START, w1, w2, w3, w4, w5];
    assert Next(p, START, actions[0], w1);
    assert Next(p, w1, actions[1], w2);
    assert Next(p, w2, actions[2], w3);
    assert ToolStarted(other.watch, 0, write) == busy.watch;
    assert Next(p, w3, actions[3], w4);
    WriteEnds(p, w4, w5, key, write);
  }

  lemma WriteEnds(p: Policy, w: World, w': World, key: string, write: string)
    requires p.perScope >= 1 && p.cap >= 1 && p.invalidateOnWrite && p.isWrite(write) && w.cache == CacheState(map[], EMPTY)
    requires 1 in w.requests && w.requests[1] == Request(Watch(Some(key), 0, map[0 := write], [write]), Running, [])
    requires w' == World(CacheState(map[key := 1], EMPTY), w.arrived,
                         w.requests[1 := Request(Watch(Some(key), 0, map[], [write]), Running, [])])
    ensures Next(p, w, ToolEnd(1, 0), w')
  {
    assert map[0 := write] - {0} == map[];
    assert w.cache.contents == EMPTY && WellFormed(EMPTY);
    assert InvalidateForWrite(true, w.cache, Some(key)) == CacheState(map[key := 1], EMPTY);
  }

  /** Under every policy with a write tool: a request that was already running when
      the write landed stores its answer. */
  lemma WriteIsMissed(p: Policy, key: string, write: string, e: Entry) returns (worlds: seq<World>)
    requires p.perScope >= 1 && p.cap >= 1 && p.invalidateOnWrite && p.isWrite(write) && key != "" && e.output == 0
    ensures Run(p, worlds, Missed(key, write, e))
    ensures Generation(worlds[4].cache, Some(key)) < Generation(worlds[5].cache, Some(key))
    ensures e in ListOf(worlds[9].cache.contents, key)
  {
    hide Next, Generation, ListOf, WellFormed;
    var start := WriteLands(p, key, write);
    var more := CompletesArrived(p, start[5], 0, key, e);
    RunThen(p, start, WriteActions(key, write), more, [Begin(0, Some(key))] + RunningActions(0, e));
    worlds := start + more[1..];
  }
}
