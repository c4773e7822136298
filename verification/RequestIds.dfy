/** `RequestIdCache`: request ids that have had their one decision. */
module RequestIds {
  import opened Text
  import opened Collections

  /** The ordered dictionary `_expires`, from ids to the time they expire. */
  type Dict = seq<Item<real>>

  /** How many items at the front have expired. */
  function Stale(s: Dict, now: real): (n: nat)
    ensures n <= |s| && forall i :: 0 <= i < n ==> s[i].value <= now
    ensures n < |s| ==> s[n].value > now
  {
    if s == [] || s[0].value > now then 0 else 1 + Stale(s[1..], now)
  }

  function Pruned(s: Dict, now: real): Dict { s[Stale(s, now)..] }

  predicate Live(s: Dict, id: string, now: real) {
    exists i :: 0 <= i < |s| && s[i].key == id && s[i].value > now
  }

  function TtlOr(ttl: Option<real>, default: real): real {
    if ttl.Some? && ttl.value > 0.0 then ttl.value else default
  }

  /** The dictionary after `claim`; it succeeds exactly when `id` was not live. */
  function AfterClaim(s: Dict, id: string, now: real, ttl: real, maxSize: nat): Dict {
    var p := Pruned(s, now);
    if Live(p, id, now) then p else Newest(Remove(p, id) + [Item(id, now + ttl)], maxSize)
  }

  // ---- Small facts ----

  /** Pruning never changes which ids are live. */
  lemma PrunedLive(s: Dict, id: string, now: real)
    ensures Live(Pruned(s, now), id, now) <==> Live(s, id, now)
  {
    var n := Stale(s, now);
    if Live(s, id, now) {
      var i :| 0 <= i < |s| && s[i].key == id && s[i].value > now;
      assert Pruned(s, now)[i - n] == s[i];
    }
  }

  lemma ClaimKeeps(s: Dict, id: string, now: real, ttl: real, maxSize: nat)
    requires Distinct(s) && maxSize >= 1
    ensures Distinct(AfterClaim(s, id, now, ttl, maxSize))
    ensures |s| <= maxSize ==> |AfterClaim(s, id, now, ttl, maxSize)| <= maxSize
  {
    hide Stale, Remove, Newest, Distinct, Live;
    var p := Pruned(s, now);
    SuffixDistinct(s, Stale(s, now));
    RemoveDistinct(p, id);
    AppendDistinct(Remove(p, id), Item(id, now + ttl));
    NewestDistinct(Remove(p, id) + [Item(id, now + ttl)], maxSize);
  }

  lemma SuffixDistinct(s: Dict, n: nat)
    requires Distinct(s) && n <= |s|
    ensures Distinct(s[n..])
  {
  }

  // ---- The object ----

  class RequestIdCache {
    const ttl: real
    const maxSize: nat
    var expires: Dict

    ghost predicate Valid()
      reads this
    {
      ttl > 0.0 && maxSize >= 1 && Distinct(expires) && |expires| <= maxSize
    }

    constructor (defaultTtl: real, size: nat)
      requires defaultTtl > 0.0 && size >= 1
      ensures Valid() && ttl == defaultTtl && maxSize == size && expires == []
    {
      ttl, maxSize, expires := defaultTtl, size, [];
    }

    method Prune(now: real)
      requires Valid()
      modifies this
      ensures Valid() && expires == Pruned(old(expires), now)
    {
      while expires != [] && expires[0].value <= now
        invariant Valid() && Pruned(expires, now) == Pruned(old(expires), now)
        decreases |expires|
      {
        expires := expires[1..];
      }
    }

    method Claim(id: string, now: real, lifetime: Option<real>) returns (ok: bool)
      requires Valid()
      modifies this
      ensures Valid()
      ensures ok <==> !Live(old(expires), id, now)
      ensures expires == AfterClaim(old(expires), id, now, TtlOr(lifetime, ttl), maxSize)
    {
      hide Remove, Stale, Distinct, Newest;
      PrunedLive(expires, id, now);
      ClaimKeeps(expires, id, now, TtlOr(lifetime, ttl), maxSize);
      Prune(now);
      if exists i :: 0 <= i < |expires| && expires[i].key == id && expires[i].value > now {
        return false;
      }
      expires := Remove(expires, id) + [Item(id, now + TtlOr(lifetime, ttl))];
      DropOldest();
      ok := true;
    }

    /** The loop of `claim` that makes room: the oldest ids go first. */
    method DropOldest()
      requires maxSize >= 1
      modifies this`expires
      ensures expires == Newest(old(expires), maxSize)
    {
      ghost var full := expires;
      while |expires| > maxSize
        invariant |expires| <= |full| && expires == full[|full| - |expires|..]
        invariant |expires| < |full| ==> |expires| >= maxSize
        decreases |expires|
      {
        expires := expires[1..];
      }
    }

    method Contains(id: string, now: real) returns (found: bool)
      ensures found <==> Live(expires, id, now)
    {
      found := exists i :: 0 <= i < |expires| && expires[i].key == id && expires[i].value > now;
    }

    method Length(now: real) returns (n: nat)
      requires Valid()
      modifies this
      ensures Valid() && expires == Pruned(old(expires), now) && n == |expires| <= maxSize
    {
      Prune(now);
      n := |expires|;
    }
  }

  // ---- Whole runs, with a clock that never goes back ----

  datatype Op =
    | Claim(id: string, now: real, ttl: Option<real>)
    | Length(now: real)
    | Contains(id: string, now: real)

  datatype Config = Config(ttl: real, maxSize: nat)

  function Apply(c: Config, s: Dict, op: Op): Dict {
    match op
    case Claim(id, now, ttl) => AfterClaim(s, id, now, TtlOr(ttl, c.ttl), c.maxSize)
    case Length(now) => Pruned(s, now)
    case Contains(_, _) => s
  }

  /** `states[i]` is the dictionary before operation `i`. */
  ghost predicate Run(c: Config, states: seq<Dict>, ops: seq<Op>) {
    && c.ttl > 0.0 && c.maxSize >= 1
    && |states| == |ops| + 1 && states[0] == []
    && (forall i :: 0 <= i < |ops| ==> states[i + 1] == Apply(c, states[i], ops[i]))
    && (forall i, j :: 0 <= i < j < |ops| ==> ops[i].now <= ops[j].now)
  }

  /** Operation `i` is a claim of `id` that returned True. */
  ghost predicate Succeeds(states: seq<Dict>, ops: seq<Op>, i: nat, id: string)
    requires |states| == |ops| + 1
  {
    i < |ops| && ops[i].Claim? && ops[i].id == id && !Live(states[i], id, ops[i].now)
  }

  function Expiry(c: Config, op: Op): real
    requires op.Claim?
  {
    op.now + TtlOr(op.ttl, c.ttl)
  }

  /** The ids other than `id` that were claimed with success at steps `from..to`. */
  ghost function Others(states: seq<Dict>, ops: seq<Op>, id: string, from: nat, to: nat): set<string>
    requires |states| == |ops| + 1 && to <= |ops|
  {
    set k | from <= k < to && ops[k].Claim? && ops[k].id != id && Succeeds(states, ops, k, ops[k].id) :: ops[k].id
  }

  lemma {:induction false} RunBounded(c: Config, states: seq<Dict>, ops: seq<Op>, n: nat)
    requires Run(c, states, ops) && n <= |ops|
    ensures Distinct(states[n]) && |states[n]| <= c.maxSize
  {
    if n > 0 {
      RunBounded(c, states, ops, n - 1);
      var op := ops[n - 1];
      assert states[n - 1 + 1] == Apply(c, states[n - 1], op);
      if op.Claim? {
        ClaimKeeps(states[n - 1], op.id, op.now, TtlOr(op.ttl, c.ttl), c.maxSize);
      }
    }
  }

  /** Where a claim of `id` that expires at `e` stands: an item of the dictionary,
      with only ids from `others` after it. */
  ghost predicate Held(s: Dict, id: string, e: real, others: set<string>) {
    && s != []
    && (|| (s[0] == Item(id, e) && forall x :: x in s[1..] ==> x.key in others)
        || Held(s[1..], id, e, others))
  }

  lemma {:induction false} HeldPruned(s: Dict, now: real, id: string, e: real, others: set<string>)
    requires Held(s, id, e, others) && now < e
    ensures Held(Pruned(s, now), id, e, others)
  {
    if s[0].value <= now {
      assert Pruned(s, now) == Pruned(s[1..], now);
      HeldPruned(s[1..], now, id, e, others);
    } else {
      assert Pruned(s, now) == s;
    }
  }

  lemma {:induction false} HeldLive(s: Dict, now: real, id: string, e: real, others: set<string>)
    requires Held(s, id, e, others) && now < e
    ensures Live(s, id, now)
  {
    if !(s[0] == Item(id, e)) {
      HeldLive(s[1..], now, id, e, others);
      var i :| 0 <= i < |s[1..]| && s[1..][i].key == id && s[1..][i].value > now;
      assert s[i + 1] == s[1..][i];
    }
  }

  lemma {:induction false} HeldRemove(s: Dict, claimed: string, id: string, e: real, others: set<string>)
    requires Held(s, id, e, others) && claimed != id
    ensures Held(Remove(s, claimed), id, e, others)
  {
    var r := Remove(s, claimed);
    assert r == if s[0].key == claimed then Remove(s[1..], claimed) else [s[0]] + Remove(s[1..], claimed);
    if Held(s[1..], id, e, others) {
      HeldRemove(s[1..], claimed, id, e, others);
      if s[0].key != claimed { assert r[1..] == Remove(s[1..], claimed); }
    } else {
      assert r[0] == s[0] && r[1..] == Remove(s[1..], claimed);
    }
  }

  lemma {:induction false} HeldAppend(s: Dict, x: Item<real>, id: string, e: real, others: set<string>)
    requires Held(s, id, e, others)
    ensures Held(s + [x], id, e, others + {x.key})
  {
    assert (s + [x])[1..] == s[1..] + [x];
    if Held(s[1..], id, e, others) {
      HeldAppend(s[1..], x, id, e, others);
    }
  }

  /** A successful claim of another id keeps the item, or displaces it when the
      dictionary is full of ids claimed later. */
  lemma HeldClaim(kept: Dict, claimed: Item<real>, maxSize: nat, id: string, e: real, others: set<string>)
    requires maxSize >= 1 && Distinct(kept) && |kept| <= maxSize && claimed.key != id
    requires Held(kept, id, e, others)
    ensures
      var more := others + {claimed.key};
      Held(Newest(Remove(kept, claimed.key) + [claimed], maxSize), id, e, more) || |more| >= maxSize
  {
    hide Held, Remove, Distinct;
    var left := Remove(kept, claimed.key);
    var full := left + [claimed];
    var more := others + {claimed.key};
    HeldRemove(kept, claimed.key, id, e, others);
    RemoveDistinct(kept, claimed.key);
    AppendDistinct(left, claimed);
    HeldAppend(left, claimed, id, e, others);
    if |full| > maxSize {
      assert Newest(full, maxSize) == full[1..];
      HeldOrFull(full, id, e, more);
    }
  }

  /** Without its oldest item a dictionary still holds the id, or is full of others. */
  lemma HeldOrFull(full: Dict, id: string, e: real, others: set<string>)
    requires Distinct(full) && Held(full, id, e, others)
    ensures Held(full[1..], id, e, others) || |others| >= |full| - 1
  {
    if !Held(full[1..], id, e, others) { DistinctCount(full[1..], others); }
  }

  /** One operation before the expiry keeps the item, or `maxSize` other ids are in use. */
  lemma HeldStep(c: Config, s: Dict, op: Op, id: string, e: real, others: set<string>)
    requires c.maxSize >= 1 && Distinct(s) && |s| <= c.maxSize
    requires Held(s, id, e, others) && op.now < e
    ensures
      var more := others + if op.Claim? && op.id != id && !Live(s, op.id, op.now) then {op.id} else {};
      Held(Apply(c, s, op), id, e, more) || |more| >= c.maxSize
  {
    hide Held, Remove, Stale, Live;
    HeldPruned(s, op.now, id, e, others);
    assert others + {} == others;
    if op.Claim? {
      PrunedLive(s, op.id, op.now);
      if op.id == id {
        HeldLive(s, op.now, id, e, others);
      } else if !Live(s, op.id, op.now) {
        HeldClaim(Pruned(s, op.now), Item(op.id, Expiry(c, op)), c.maxSize, id, e, others);
      }
    }
  }

  /** After a success at `i`, before step `n`: the clock has passed its expiry,
      `maxSize` other ids were claimed since, or the id is still held. */
  lemma {:induction false} Tracked(c: Config, states: seq<Dict>, ops: seq<Op>, i: nat, n: nat, id: string)
    requires Run(c, states, ops) && Succeeds(states, ops, i, id) && i < n <= |ops|
    ensures
      var others := Others(states, ops, id, i + 1, n);
      var e := Expiry(c, ops[i]);
      ops[n - 1].now >= e || |others| >= c.maxSize || Held(states[n], id, e, others)
    decreases n
  {
    hide Held, AfterClaim, Live, Others, Apply;
    var e := Expiry(c, ops[i]);
    RunBounded(c, states, ops, n - 1);
    assert states[n - 1 + 1] == Apply(c, states[n - 1], ops[n - 1]);
    if n == i + 1 {
      JustClaimed(c, states[i], ops[i]);
      NoOthers(states, ops, id, n);
    } else {
      Tracked(c, states, ops, i, n - 1, id);
      var before, after := Others(states, ops, id, i + 1, n - 1), Others(states, ops, id, i + 1, n);
      assert ops[n - 2].now <= ops[n - 1].now;
      OthersStep(states, ops, id, i + 1, n - 1);
      if |before| >= c.maxSize {
        Grows(before, after);
      } else if ops[n - 1].now < e {
        HeldStep(c, states[n - 1], ops[n - 1], id, e, before);
      }
    }
  }

  lemma OthersStep(states: seq<Dict>, ops: seq<Op>, id: string, from: nat, n: nat)
    requires |states| == |ops| + 1 && from <= n < |ops|
    ensures Others(states, ops, id, from, n + 1) == Others(states, ops, id, from, n)
              + if ops[n].Claim? && ops[n].id != id && !Live(states[n], ops[n].id, ops[n].now) then {ops[n].id} else {}
  {
    var before, after := Others(states, ops, id, from, n), Others(states, ops, id, from, n + 1);
    forall x | x in after
      ensures x in before || (ops[n].Claim? && ops[n].id == x && x != id && !Live(states[n], x, ops[n].now))
    {
      var k :| from <= k < n + 1 && ops[k].Claim? && ops[k].id != id && Succeeds(states, ops, k, ops[k].id) && ops[k].id == x;
    }
    assert Succeeds(states, ops, n, if ops[n].Claim? then ops[n].id else "")
      <==> ops[n].Claim? && !Live(states[n], ops[n].id, ops[n].now);
  }

  lemma NoOthers(states: seq<Dict>, ops: seq<Op>, id: string, n: nat)
    requires |states| == |ops| + 1 && n <= |ops|
    ensures Others(states, ops, id, n, n) == {}
  {
  }

  lemma Grows(a: set<string>, b: set<string>)
    requires a <= b
    ensures |a| <= |b|
  {
    if a != b {
      assert b == a + (b - a);
    }
  }

  lemma JustClaimed(c: Config, s: Dict, op: Op)
    requires c.maxSize >= 1 && op.Claim? && !Live(s, op.id, op.now)
    ensures Held(Apply(c, s, op), op.id, Expiry(c, op), {})
  {
    PrunedLive(s, op.id, op.now);
    var r := Apply(c, s, op);
    LastHeld(r, op.id, Expiry(c, op));
  }

  lemma {:induction false} LastHeld(s: Dict, id: string, e: real)
    requires s != [] && s[|s| - 1] == Item(id, e)
    ensures Held(s, id, e, {})
  {
    if |s| > 1 { LastHeld(s[1..], id, e); }
  }

  // ---- Main results ----

  /** An id is remembered: after a success it is live until the lifetime of that claim
      is over, or until `maxSize` different other ids were claimed.  The lifetime is
      the claim's own if that is positive, and else the cache's. */
  lemma Remembered(c: Config, states: seq<Dict>, ops: seq<Op>, i: nat, n: nat, id: string, now: real)
    requires Run(c, states, ops) && Succeeds(states, ops, i, id) && i < n <= |ops| && ops[n - 1].now <= now
    ensures
      var ttl := ops[i].ttl;
      var lifetime := if ttl.Some? && ttl.value > 0.0 then ttl.value else c.ttl;
      || now >= ops[i].now + lifetime
      || |Others(states, ops, id, i + 1, n)| >= c.maxSize
      || Live(states[n], id, now)
  {
    hide Others, Live, Held, Apply;
    Tracked(c, states, ops, i, n, id);
    var e := Expiry(c, ops[i]);
    var others := Others(states, ops, id, i + 1, n);
    if Held(states[n], id, e, others) && now < e {
      HeldLive(states[n], now, id, e, others);
    }
  }

  /** Two successful claims of one id are separated by the first one's lifetime,
      or by successful claims of at least `maxSize` different other ids. */
  lemma SingleUse(c: Config, states: seq<Dict>, ops: seq<Op>, i: nat, j: nat, id: string)
    requires Run(c, states, ops) && i < j
    requires Succeeds(states, ops, i, id) && Succeeds(states, ops, j, id)
    ensures
      var ttl := ops[i].ttl;
      var lifetime := if ttl.Some? && ttl.value > 0.0 then ttl.value else c.ttl;
      ops[j].now >= ops[i].now + lifetime || |Others(states, ops, id, i + 1, j)| >= c.maxSize
  {
    hide Others, Live;
    assert ops[j - 1].now <= ops[j].now;
    Remembered(c, states, ops, i, j, id, ops[j].now);
  }

  /** Every item of the dictionary is there because of an earlier success. */
  lemma {:induction false} ItemsWereClaimed(c: Config, states: seq<Dict>, ops: seq<Op>, n: nat, x: Item<real>)
    requires Run(c, states, ops) && n <= |ops| && x in states[n]
    ensures exists i :: 0 <= i < n && Succeeds(states, ops, i, x.key) && x.value == Expiry(c, ops[i])
  {
    hide Apply, Live;
    if n > 0 {
      var s, op := states[n - 1], ops[n - 1];
      assert states[n - 1 + 1] == Apply(c, s, op);
      if x in s {
        ItemsWereClaimed(c, states, ops, n - 1, x);
      } else {
        NewItem(c, s, op, x);
        assert Succeeds(states, ops, n - 1, x.key);
      }
    }
  }

  lemma NewItem(c: Config, s: Dict, op: Op, x: Item<real>)
    requires x in Apply(c, s, op) && x !in s
    ensures op.Claim? && op.id == x.key && !Live(s, x.key, op.now) && x.value == Expiry(c, op)
  {
    hide Stale, Live;
    if op.Claim? {
      PrunedLive(s, op.id, op.now);
      assert forall y :: y in Pruned(s, op.now) ==> y in s;
    }
  }

  /** A live id has an earlier success that has not expired. */
  lemma LiveWasClaimed(c: Config, states: seq<Dict>, ops: seq<Op>, n: nat, id: string, now: real)
    requires Run(c, states, ops) && n <= |ops| && Live(states[n], id, now)
    ensures exists i :: 0 <= i < n && Succeeds(states, ops, i, id)
              && now < ops[i].now + if ops[i].ttl.Some? && ops[i].ttl.value > 0.0 then ops[i].ttl.value else c.ttl
  {
    var k :| 0 <= k < |states[n]| && states[n][k].key == id && states[n][k].value > now;
    ItemsWereClaimed(c, states, ops, n, states[n][k]);
  }

  /** A claim is refused only while an earlier successful claim of the same id
      is still within its lifetime. */
  lemma RefusedOnlyWhileLive(c: Config, states: seq<Dict>, ops: seq<Op>, j: nat)
    requires Run(c, states, ops) && j < |ops| && ops[j].Claim? && !Succeeds(states, ops, j, ops[j].id)
    ensures exists i :: 0 <= i < j && Succeeds(states, ops, i, ops[j].id)
              && ops[j].now < ops[i].now + if ops[i].ttl.Some? && ops[i].ttl.value > 0.0 then ops[i].ttl.value else c.ttl
  {
    LiveWasClaimed(c, states, ops, j, ops[j].id, ops[j].now);
  }
}
