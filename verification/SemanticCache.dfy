/** `SemanticCache` and `ToolCallWatcher` as the objects they are.  Each method
    is the code of one atomic step; its contract is the corresponding function
    of CacheRequests, so the results about interleavings speak of this code. */
module SemanticCache {
  import opened Text
  import opened CacheStore
  import opened CacheBackend
  import opened CacheRequests
  import ScopeKeys

  /** Parts of an entry that come with the request. */
  datatype Context = Context(fingerprint: string, modelId: string, instructionHash: string)

  const BUILTIN_READ_ONLY_TOOLS := {"request_more_tools"}

  class SemanticCache {
    const backend: InMemoryCacheBackend
    const hash: ScopeKeys.Hash
    const mode: ScopeKeys.ScopeMode
    const threshold: real
    const invalidateOnWrite: bool
    const cacheToolTurns: bool
    const writeTools: string -> bool       // a `write_tools` pattern matches
    const readOnlyTools: string -> bool    // a `read_only_tools` pattern matches
    const resolveTtl: string -> int
    var writeGeneration: map<string, nat>

    ghost predicate Valid()
      reads this, backend
    {
      backend.Valid()
    }

    lemma ValidContents()
      requires Valid()
      ensures WellFormed(State().contents)
    {
    }

    ghost function State(): CacheState
      reads this, backend
    {
      CacheState(writeGeneration, backend.Contents())
    }

    constructor (b: InMemoryCacheBackend, h: ScopeKeys.Hash, m: ScopeKeys.ScopeMode, similarity: real,
                 onWrite: bool, toolTurns: bool, writes: string -> bool, reads_: string -> bool, ttl: string -> int)
      requires b.Valid()
      ensures Valid() && backend == b && hash == h && mode == m && threshold == similarity
      ensures invalidateOnWrite == onWrite && cacheToolTurns == toolTurns
      ensures State() == CacheState(map[], b.Contents())
    {
      backend, hash, mode, threshold := b, h, m, similarity;
      invalidateOnWrite, cacheToolTurns := onWrite, toolTurns;
      writeTools, readOnlyTools, resolveTtl := writes, reads_, ttl;
      writeGeneration := map[];
    }

    function Scope(caller: Option<ScopeKeys.Caller>): (r: Option<string>)
      ensures r != Some("")
    {
      ScopeKeys.BuildScopeKey(hash, mode, caller)
    }

    /** Explicit lists decide before annotations; no annotation means a write. */
    predicate IsWriteTool(name: string, readOnlyHint: Option<bool>): (r: bool)
      ensures r <==> writeTools(name) || (!readOnlyTools(name) && name != "request_more_tools" && readOnlyHint != Some(true))
    {
      if writeTools(name) then true
      else if readOnlyTools(name) then false
      else if name in BUILTIN_READ_ONLY_TOOLS then false
      else !(readOnlyHint == Some(true))
    }

    method WriteGeneration(caller: Option<ScopeKeys.Caller>) returns (generation: nat)
      requires Valid()
      ensures generation == Generation(State(), Scope(caller))
    {
      var scope := Scope(caller);
      var key := if scope.Some? then scope.value else "";
      generation := if key in writeGeneration then writeGeneration[key] else 0;
    }

    /** `check` from the answer of the embedding call on (None: it failed). */
    method Check(queryText: string, embedding: Option<Vec>, context: Context,
                 caller: Option<ScopeKeys.Caller>, now: real) returns (found: Option<Entry>)
      requires Valid()
      modifies backend
      ensures Valid()
      ensures
        var scope := Scope(caller);
        if scope.None? || ScopeKeys.Blank(queryText) || embedding.None?
        then found.None? && State() == old(State())
        else
          var q := ContextQuery(embedding.value, context);
          && Searched(q, now, ListOf(old(State().contents), scope.value), ListOf(State().contents, scope.value), found)
          && State().generation == old(State().generation)
          && forall k :: k != scope.value ==> ListOf(State().contents, k) == ListOf(old(State().contents), k)
      ensures
        var searched := Scope(caller).Some? && !ScopeKeys.Blank(queryText) && embedding.Some?;
        var before := if searched then ListOf(old(State().contents), Scope(caller).value) else [];
        && (found.Some? ==> FitsContext(found.value, context))
        && (found.None? <==> !searched || forall e :: e in before && !Expired(e, now) && FitsContext(e, context) ==>
              !Intact(backend.lib, e) || Similarity(e, embedding.value) < threshold)
      ensures backend.hits == old(backend.hits) + (if found.Some? then 1 else 0)
      ensures backend.misses == old(backend.misses) + (if found.None? then 1 else 0)
    {
      hide InMemoryCacheBackend.Consistent, WellFormed, Searched, Expired, Score, Intact, FitsContext, Similarity;
      var scope := Scope(caller);
      found := None;
      if scope.Some? && !ScopeKeys.Blank(queryText) && embedding.Some? {
        ghost var before := ListOf(State().contents, scope.value);
        found := backend.Search(scope.value, ContextQuery(embedding.value, context), now);
        AnswerFits(embedding.value, context, now, before, ListOf(State().contents, scope.value), found);
      }
      if found.None? {
        backend.misses := backend.misses + 1;
      } else {
        backend.hits := backend.hits + 1;
      }
    }

    /** Stored under this context, by this model and under these instructions. */
    predicate FitsContext(e: Entry, context: Context) {
      && e.contextFingerprint == context.fingerprint
      && e.modelId == context.modelId
      && e.instructionHash == context.instructionHash
    }

    function Similarity(e: Entry, vec: Vec): real {
      backend.lib.dot(backend.lib.toRow(e.embedding), backend.lib.toRow(vec))
    }

    /** Only entries stored under the same context, model and instructions apply. */
    function ContextQuery(vec: Vec, context: Context): Query {
      Query(backend.lib, vec, threshold,
            (e: Entry) => e.contextFingerprint == context.fingerprint && e.modelId == context.modelId
                          && e.instructionHash == context.instructionHash)
    }

    lemma AnswerFits(vec: Vec, context: Context, now: real, before: seq<Entry>, after: seq<Entry>, found: Option<Entry>)
      requires Searched(ContextQuery(vec, context), now, before, after, found)
      ensures found.Some? ==> FitsContext(found.value, context)
      ensures found.None? <==> forall e :: e in before && !Expired(e, now) && FitsContext(e, context) ==>
                !Intact(backend.lib, e) || Similarity(e, vec) < threshold
    {
      hide Searched, Expired, Intact;
      var q := ContextQuery(vec, context);
      SearchAnswers(q, now, before, after, found);
      assert forall e :: Servable(q, e) <==> FitsContext(e, context) && Intact(backend.lib, e) && Similarity(e, vec) >= threshold;
    }

    /** `store` up to the embedding call: whether to make it. */
    method StoreBegin(queryText: string, responseText: string, caller: Option<ScopeKeys.Caller>,
                      generation: Option<nat>) returns (goOn: bool)
      requires Valid()
      ensures goOn <==> && Scope(caller).Some? && !ScopeKeys.Blank(queryText) && !ScopeKeys.Blank(responseText)
                        && (generation.None? || Generation(State(), Scope(caller)) == generation.value)
    {
      var scope := Scope(caller);
      if scope.None? || ScopeKeys.Blank(queryText) || ScopeKeys.Blank(responseText) {
        return false;
      }
      var current := WriteGeneration(caller);
      goOn := generation.None? || current == generation.value;
    }

    /** `store` from the answer of the embedding call on. */
    method StoreFinish(queryText: string, responseText: string, output: nat, embedding: Option<Vec>, context: Context,
                       caller: Option<ScopeKeys.Caller>, toolsUsed: seq<string>, generation: Option<nat>, now: real)
      requires Valid() && Scope(caller).Some?
      modifies backend
      ensures Valid()
      ensures State() ==
              if embedding.None? || (generation.Some? && Generation(old(State()), Scope(caller)) != generation.value)
              then old(State())
              else old(State()).(contents :=
                StoreEntry(old(State()).contents, Scope(caller).value,
                           NewEntry(queryText, responseText, output, embedding.value, context, caller, toolsUsed, now),
                           backend.maxPerScope, backend.maxTotal))
    {
      var current := WriteGeneration(caller);
      if embedding.None? || (generation.Some? && current != generation.value) {
        return;
      }
      backend.Store(Scope(caller).value,
                    NewEntry(queryText, responseText, output, embedding.value, context, caller, toolsUsed, now));
    }

    function NewEntry(queryText: string, responseText: string, output: nat, embedding: Vec, context: Context,
                      caller: Option<ScopeKeys.Caller>, toolsUsed: seq<string>, now: real): (e: Entry)
      requires Scope(caller).Some?
      ensures Intact(backend.lib, e) && FitsContext(e, context) && e.scopeKey == Scope(caller).value
      ensures e.output == output && e.createdAt == now && e.ttl == resolveTtl(queryText)
      ensures e.queryText == queryText && e.response == responseText && e.embedding == embedding && e.toolsUsed == toolsUsed
    {
      Entry(queryText, responseText, output, embedding, Scope(caller).value,
            context.fingerprint, context.modelId, context.instructionHash,
            backend.lib.digest(responseText), now, resolveTtl(queryText), toolsUsed, None)
    }

    /** What is stored is found again: a new entry serves a query exactly while it lives,
        under the same context, model and instructions and above the threshold. */
    lemma StoredIsFound(queryText: string, responseText: string, output: nat, embedding: Vec, context: Context,
                        caller: Option<ScopeKeys.Caller>, toolsUsed: seq<string>, stored: real, vec: Vec, asked: Context, now: real)
      requires Scope(caller).Some?
      ensures
        var e := NewEntry(queryText, responseText, output, embedding, context, caller, toolsUsed, stored);
        && (Servable(ContextQuery(vec, asked), e) <==>
              context == asked && backend.lib.dot(backend.lib.toRow(embedding), backend.lib.toRow(vec)) >= threshold)
        && (Expired(e, now) <==> now > stored + resolveTtl(queryText) as real)
    {
    }

    method InvalidateForWrite(caller: Option<ScopeKeys.Caller>)
      requires Valid()
      modifies this`writeGeneration, backend
      ensures Valid() && WellFormed(old(State()).contents)
      ensures State() == CacheRequests.InvalidateForWrite(invalidateOnWrite, old(State()), Scope(caller))
    {
      hide InMemoryCacheBackend.Consistent, WellFormed;
      ValidContents();
      if !invalidateOnWrite {
        return;
      }
      var scope := Scope(caller);
      if scope.None? {
        return;
      }
      var current := WriteGeneration(caller);
      writeGeneration := writeGeneration[scope.value := current + 1];
      var _ := backend.Invalidate(scope.value, None);
    }

    method PurgeUser(userId: string, tenant: Option<string>) returns (count: nat)
      requires Valid()
      modifies backend
      ensures Valid() && WellFormed(old(State()).contents)
      ensures
        match ScopeKeys.PurgeKey(hash, userId, tenant)
        case None => count == 0 && State() == old(State())
        case Some(key) => && count == |ListOf(old(State()).contents, key)|
                          && State() == old(State()).(contents := DropScope(old(State()).contents, key))
    {
      var scoped := ScopeKeys.ScopedUserId(hash, tenant, userId);
      if scoped == "" {
        return 0;
      }
      count := backend.PurgeUser(scoped);
    }
  }

  /** A purge empties exactly one partition: a caller's cached answers are gone
      if the caller is the purged user without a narrower session, and are left
      alone otherwise. */
  lemma PurgeIsExact(hash: ScopeKeys.Hash, mode: ScopeKeys.ScopeMode, c: ScopeKeys.Caller,
                     user: string, tenant: Option<string>, s: Snapshot)
    requires WellFormed(s)
    requires ScopeKeys.BuildScopeKey(hash, mode, Some(c)).Some? && ScopeKeys.PurgeKey(hash, user, tenant).Some?
    ensures
      var key := ScopeKeys.BuildScopeKey(hash, mode, Some(c)).value;
      var after := DropScope(s, ScopeKeys.PurgeKey(hash, user, tenant).value);
      if mode != ScopeKeys.Shared && ScopeKeys.EffectiveSession(mode, c).None?
         && ScopeKeys.ScopedUserId(hash, c.tenantId, c.userId.value) == ScopeKeys.ScopedUserId(hash, tenant, user)
      then ListOf(after, key) == []
      else ListOf(after, key) == ListOf(s, key)
  {
    ScopeKeys.PurgeHits(hash, mode, c, user, tenant);
  }

  /** In terms of tenant and user: purging a tenant's user empties that caller's own
      partition, and leaves every other caller's as it was or exhibits a collision of
      the hash.  Session partitions of the purged user are among the others. */
  lemma TenantedPurgeIsExact(hash: ScopeKeys.Hash, mode: ScopeKeys.ScopeMode, c: ScopeKeys.Caller,
                             user: string, tenant: string, s: Snapshot)
    requires WellFormed(s) && tenant != ""
    ensures
      var key, purged := ScopeKeys.BuildScopeKey(hash, mode, Some(c)), ScopeKeys.PurgeKey(hash, user, Some(tenant));
      key.Some? && purged.Some? ==>
        var after := DropScope(s, purged.value);
        if mode != ScopeKeys.Shared && ScopeKeys.EffectiveSession(mode, c).None?
           && c.tenantId == Some(tenant) && c.userId == Some(user)
        then ListOf(after, key.value) == []
        else
          || ListOf(after, key.value) == ListOf(s, key.value)
          || (ScopeKeys.HasTenant(c.tenantId) && c.userId.Some?
              && ScopeKeys.Collide(hash, ScopeKeys.Material(tenant, user), ScopeKeys.Material(c.tenantId.value, c.userId.value)))
  {
    hide DropScope, ListOf, WellFormed, ScopeKeys.Material, ScopeKeys.Blank;
    if ScopeKeys.BuildScopeKey(hash, mode, Some(c)).Some? && ScopeKeys.PurgeKey(hash, user, Some(tenant)).Some? {
      PurgeIsExact(hash, mode, c, user, Some(tenant), s);
      if mode != ScopeKeys.Shared && !ScopeKeys.HasTenant(c.tenantId) {
        ScopeKeys.TenantedDisjoint(hash, Some(tenant), user, c.tenantId, c.userId.value);
      } else if mode != ScopeKeys.Shared
             && ScopeKeys.ScopedUserId(hash, Some(tenant), user) == ScopeKeys.ScopedUserId(hash, c.tenantId, c.userId.value) {
        ScopeKeys.TenantedInjective(hash, Some(tenant), user, c.tenantId, c.userId.value);
      }
    }
  }

  class ToolCallWatcher {
    const cache: SemanticCache
    const caller: Option<ScopeKeys.Caller>
    const annotations: map<string, Option<bool>>
    const approvalGated: set<string>
    const writeGeneration: nat
    var running: map<nat, string>
    var toolsCalled: seq<string>

    ghost function Watching(): Watch
      reads this
    {
      Watch(cache.Scope(caller), writeGeneration, running, toolsCalled)
    }

    constructor (c: SemanticCache, who: Option<ScopeKeys.Caller>, notes: map<string, Option<bool>>, gated: set<string>)
      requires c.Valid()
      ensures cache == c && caller == who && annotations == notes && approvalGated == gated
      ensures Watching() == Watch(c.Scope(who), Generation(c.State(), c.Scope(who)), map[], [])
    {
      cache, caller, annotations, approvalGated := c, who, notes, gated;
      running, toolsCalled := map[], [];
      var generation := c.WriteGeneration(who);
      writeGeneration := generation;
    }

    predicate IsWrite(name: string): (r: bool)
      ensures r <==> || cache.writeTools(name)
                     || (&& !cache.readOnlyTools(name) && name != "request_more_tools"
                         && !(name in annotations && annotations[name] == Some(true)))
    {
      cache.IsWriteTool(name, if name in annotations then annotations[name] else None)
    }

    method OnToolStart(runId: nat, name: string)
      modifies this
      ensures Watching() == ToolStarted(old(Watching()), runId, name)
    {
      running := running[runId := name];
      toolsCalled := toolsCalled + [name];
    }

    /** `on_tool_end` and `on_tool_error` alike. */
    method Finished(runId: nat)
      requires cache.Valid()
      modifies this, cache`writeGeneration, cache.backend
      ensures cache.Valid() && WellFormed(old(cache.State()).contents)
      ensures Watching() == ToolFinished(old(Watching()), runId)
      ensures cache.State() ==
              if runId in old(running) && IsWrite(old(running)[runId])
              then InvalidateForWrite(cache.invalidateOnWrite, old(cache.State()), cache.Scope(caller))
              else old(cache.State())
    {
      if runId in running {
        var name := running[runId];
        running := running - {runId};
        if IsWrite(name) {
          cache.InvalidateForWrite(caller);
        }
      } else {
        assert running - {runId} == running;
      }
    }

    /** What the write rules and settings of this watcher's cache come to. */
    function Rules(): Policy {
      Policy(cache.invalidateOnWrite, cache.cacheToolTurns, n => IsWrite(n), approvalGated,
             cache.backend.maxPerScope, cache.backend.maxTotal)
    }

    /** `settle`: collect the unseen writes, invalidate once for each, then judge
        the whole turn. */
    method Settle(toolsInOutput: seq<string>) returns (storable: bool)
      requires cache.Valid()
      modifies cache`writeGeneration, cache.backend
      ensures cache.Valid() && WellFormed(old(cache.State()).contents)
      ensures cache.State() == InvalidateTimes(cache.invalidateOnWrite, old(cache.State()), cache.Scope(caller),
                                               |UnseenWrites(Rules().isWrite, toolsCalled, toolsInOutput)|)
      ensures
        var unseen := set i: nat | i < |toolsInOutput| && toolsInOutput[i] !in toolsCalled && IsWrite(toolsInOutput[i]);
        var scope := cache.Scope(caller);
        if unseen == {} || !cache.invalidateOnWrite || scope.None? then cache.State() == old(cache.State())
        else
          && Generation(cache.State(), scope) == Generation(old(cache.State()), scope) + |unseen|
          && ListOf(cache.State().contents, scope.value) == []
          && forall k :: k != scope.value ==>
               Generation(cache.State(), Some(k)) == Generation(old(cache.State()), Some(k))
               && ListOf(cache.State().contents, k) == ListOf(old(cache.State()).contents, k)
      ensures storable <==>
        && (forall t :: t in toolsCalled || t in toolsInOutput ==> !IsWrite(t) && t !in approvalGated)
        && ((toolsCalled == [] && toolsInOutput == []) || cache.cacheToolTurns)
    {
      hide UnseenWrites, InvalidateTimes, WellFormed, Generation, ListOf;
      var unseen := Unseen(toolsInOutput);
      CountUnseen(toolsInOutput);
      cache.ValidContents();
      TimesExactly(cache.invalidateOnWrite, cache.State(), cache.Scope(caller), |unseen|);
      InvalidateEach(|unseen|);
      var called := toolsCalled + toolsInOutput;
      storable := Judge(called);
      assert forall t :: t in called <==> t in toolsCalled || t in toolsInOutput;
      assert called == [] <==> toolsCalled == [] && toolsInOutput == [];
    }

    lemma CountUnseen(toolsInOutput: seq<string>)
      ensures |UnseenWrites(Rules().isWrite, toolsCalled, toolsInOutput)|
        == |set i: nat | i < |toolsInOutput| && toolsInOutput[i] !in toolsCalled && IsWrite(toolsInOutput[i])|
    {
      var isWrite := Rules().isWrite;
      UnseenCount(isWrite, toolsCalled, toolsInOutput);
      assert (set i: nat | i < |toolsInOutput| && toolsInOutput[i] !in toolsCalled && isWrite(toolsInOutput[i]))
          == (set i: nat | i < |toolsInOutput| && toolsInOutput[i] !in toolsCalled && IsWrite(toolsInOutput[i]));
    }

    method InvalidateEach(count: nat)
      requires cache.Valid()
      modifies cache`writeGeneration, cache.backend
      ensures cache.Valid() && WellFormed(old(cache.State()).contents)
      ensures cache.State() == InvalidateTimes(cache.invalidateOnWrite, old(cache.State()), cache.Scope(caller), count)
    {
      hide SemanticCache.Valid, InvalidateForWrite, WellFormed, SemanticCache.Scope;
      ghost var start := cache.State();
      cache.ValidContents();
      var k := 0;
      while k < count
        invariant k <= count && cache.Valid()
        invariant cache.State() == InvalidateTimes(cache.invalidateOnWrite, start, cache.Scope(caller), k)
      {
        cache.InvalidateForWrite(caller);
        k := k + 1;
      }
    }

    /** The verdict: no write and no gated tool, and tools at all only by policy. */
    method Judge(called: seq<string>) returns (storable: bool)
      ensures storable <==> Storable(Rules(), called)
    {
      if exists n :: n in called && (IsWrite(n) || n in approvalGated) {
        return false;
      }
      storable := called == [] || cache.cacheToolTurns;
    }

    method Unseen(toolsInOutput: seq<string>) returns (unseen: seq<string>)
      ensures unseen == UnseenWrites(Rules().isWrite, toolsCalled, toolsInOutput)
    {
      unseen := [];
      for k := 0 to |toolsInOutput|
        invariant unseen == UnseenWrites(Rules().isWrite, toolsCalled, toolsInOutput[..k])
      {
        assert toolsInOutput[..k + 1][..k] == toolsInOutput[..k];
        if toolsInOutput[k] !in toolsCalled && IsWrite(toolsInOutput[k]) {
          unseen := unseen + [toolsInOutput[k]];
        }
      }
      assert toolsInOutput[..|toolsInOutput|] == toolsInOutput;
    }
  }
}
