/** The keys that keep one caller's data apart from another's: the semantic
    cache's partition keys and `CallerContext.isolation_key`.

    The hash (the first 40 hexadecimal digits of a SHA-256) is the parameter
    `hash`; what a hash can break is stated as `Collide`, never assumed away. */
module ScopeKeys {
  import opened Text

  type Hash = string -> string

  /** The fields of a `CallerContext` that keys are made from; `sessionId` is
      `metadata["session_id"]` as text. */
  datatype Caller = Caller(userId: Option<string>, tenantId: Option<string>, sessionId: Option<string>)

  datatype ScopeMode = Shared | PerUser | PerSession | Unrecognised

  ghost predicate Collide(hash: Hash, a: string, b: string) {
    a != b && hash(a) == hash(b)
  }

  predicate Blank(s: string) { Strip(s) == "" }

  predicate HasTenant(tenant: Option<string>) {
    tenant.Some? && tenant.value != ""
  }

  // ---- Length-prefixed material ----

  /** `f"{len(a)}:{a}:{b}"` */
  function Material(a: string, b: string): string {
    Decimal(|a|) + ":" + a + ":" + b
  }

  /** Reads a length-prefixed material back: the number before the first colon
      says how many characters after it are the first component. */
  function Decode(s: string): Option<(string, string)> {
    var i := IndexOf(s, ':');
    if i == |s| || exists c :: c in s[..i] && !IsDigit(c) then None
    else
      var n := ParseDecimal(s[..i]);
      if i + 1 + n >= |s| || s[i + 1 + n] != ':' then None
      else Some((s[i + 1..i + 1 + n], s[i + 2 + n..]))
  }

  /** The material decodes uniquely, wherever colons fall in its components. */
  lemma MaterialDecodes(a: string, b: string)
    ensures Decode(Material(a, b)) == Some((a, b))
  {
    var digits := Decimal(|a|);
    var s := Material(a, b);
    assert s == digits + [':'] + (a + ":" + b);
    assert ':' !in digits;
    IndexOfSplit(digits, ':', a + ":" + b);
    assert s[..|digits|] == digits;
    DecimalRoundTrip(|a|);
    var i := |digits|;
    assert s[i + 1..i + 1 + |a|] == a;
    assert s[i + 1 + |a|] == ':';
    assert s[i + 2 + |a|..] == b;
  }

  lemma MaterialInjective(a: string, b: string, a': string, b': string)
    requires Material(a, b) == Material(a', b')
    ensures a == a' && b == b'
  {
    MaterialDecodes(a, b);
    MaterialDecodes(a', b');
  }

  // ---- The semantic cache's keys ----

  function Replace(s: string, from: char, to: char): (r: string)
    ensures |r| == |s|
    ensures forall i :: 0 <= i < |s| ==> r[i] == if s[i] == from then to else s[i]
  {
    seq(|s|, i requires 0 <= i < |s| => if s[i] == from then to else s[i])
  }

  function SanitizeScopeId(value: string): (r: string)
    ensures ':' !in r && '/' !in r
    ensures r == "" <==> Blank(value)
  {
    if Blank(value) then "" else Replace(Replace(Strip(value), ':', '_'), '/', '_')
  }

  /** Sanitizing strips, and changes the two delimiters and nothing else; an id that
      needs neither is kept as it is. */
  lemma SanitizeKeeps(value: string)
    ensures
      var r := SanitizeScopeId(value);
      && |r| == |Strip(value)|
      && (forall i :: 0 <= i < |r| ==> r[i] == if Strip(value)[i] == ':' || Strip(value)[i] == '/' then '_' else Strip(value)[i])
      && (Trimmed(value) && ':' !in value && '/' !in value ==> r == value)
  {
    hide Strip;
    if Trimmed(value) { StripTrimmed(value); }
  }

  function ScopedUserId(hash: Hash, tenant: Option<string>, user: string): string {
    if Blank(user) then ""
    else if !HasTenant(tenant) then SanitizeScopeId(user)
    else "t:" + hash(Material(tenant.value, user))
  }

  function SessionScopeId(hash: Hash, scopedUser: string, session: string): string {
    hash(Material(scopedUser, session))
  }

  /** The session a caller's partition is narrowed to, if any. */
  function EffectiveSession(mode: ScopeMode, caller: Caller): Option<string> {
    if mode == PerSession && caller.sessionId.Some? && !Blank(caller.sessionId.value)
    then caller.sessionId else None
  }

  function BuildScopeKey(hash: Hash, mode: ScopeMode, caller: Option<Caller>): (r: Option<string>)
    ensures r.Some? ==> r.value != ""
  {
    if mode == Shared then Some("shared")
    else if caller.None? || caller.value.userId.None? || mode == Unrecognised then None
    else
      var safe := ScopedUserId(hash, caller.value.tenantId, caller.value.userId.value);
      if safe == "" then None
      else match EffectiveSession(mode, caller.value)
        case Some(session) => Some("session:" + SessionScopeId(hash, safe, session))
        case None => Some("user:" + safe)
  }

  /** The partition `purge_user` empties, or None when it does nothing. */
  function PurgeKey(hash: Hash, user: string, tenant: Option<string>): Option<string> {
    var scoped := ScopedUserId(hash, tenant, user);
    if scoped == "" then None else Some("user:" + scoped)
  }

  /** Tenanted and untenanted ids never meet, whatever the hash does. */
  lemma TenantedDisjoint(hash: Hash, tenant: Option<string>, user: string,
                         tenant': Option<string>, user': string)
    requires HasTenant(tenant) && !HasTenant(tenant')
    requires ScopedUserId(hash, tenant, user) != ""
    ensures ScopedUserId(hash, tenant, user) != ScopedUserId(hash, tenant', user')
  {
    assert ScopedUserId(hash, tenant, user)[1] == ':';
    assert ':' !in ScopedUserId(hash, tenant', user');
  }

  /** Equal ids of two tenanted users are the same user of the same tenant, or
      a hash collision. */
  lemma TenantedInjective(hash: Hash, tenant: Option<string>, user: string,
                          tenant': Option<string>, user': string)
    requires HasTenant(tenant) && HasTenant(tenant')
    requires ScopedUserId(hash, tenant, user) == ScopedUserId(hash, tenant', user') != ""
    ensures || (tenant == tenant' && user == user')
            || Collide(hash, Material(tenant.value, user), Material(tenant'.value, user'))
  {
    var id, id' := ScopedUserId(hash, tenant, user), ScopedUserId(hash, tenant', user');
    assert id[2..] == hash(Material(tenant.value, user));
    assert id'[2..] == hash(Material(tenant'.value, user'));
    if Material(tenant.value, user) == Material(tenant'.value, user') {
      MaterialInjective(tenant.value, user, tenant'.value, user');
    }
  }

  /** Two callers share a partition of an unshared cache exactly when they are
      the same scoped user in the same session (or the hash collides). */
  lemma PartitionIdentity(hash: Hash, mode: ScopeMode, c: Caller, c': Caller)
    requires mode != Shared
    requires BuildScopeKey(hash, mode, Some(c)).Some? && BuildScopeKey(hash, mode, Some(c')).Some?
    ensures
      var u := ScopedUserId(hash, c.tenantId, c.userId.value);
      var u' := ScopedUserId(hash, c'.tenantId, c'.userId.value);
      var s, s' := EffectiveSession(mode, c), EffectiveSession(mode, c');
      var same := u == u' && s == s';
      && (same ==> BuildScopeKey(hash, mode, Some(c)) == BuildScopeKey(hash, mode, Some(c')))
      && (BuildScopeKey(hash, mode, Some(c)) == BuildScopeKey(hash, mode, Some(c')) ==>
            || same
            || (s.Some? && s'.Some? && Collide(hash, Material(u, s.value), Material(u', s'.value))))
  {
    var u := ScopedUserId(hash, c.tenantId, c.userId.value);
    var u' := ScopedUserId(hash, c'.tenantId, c'.userId.value);
    var s, s' := EffectiveSession(mode, c), EffectiveSession(mode, c');
    var k, k' := BuildScopeKey(hash, mode, Some(c)).value, BuildScopeKey(hash, mode, Some(c')).value;
    if k == k' {
      assert k[0] == (if s.Some? then 's' else 'u');
      assert k'[0] == (if s'.Some? then 's' else 'u');
      if s.Some? {
        assert k[8..] == hash(Material(u, s.value));
        assert k'[8..] == hash(Material(u', s'.value));
        if Material(u, s.value) == Material(u', s'.value) {
          MaterialInjective(u, s.value, u', s'.value);
        }
      } else {
        assert k[5..] == u;
        assert k'[5..] == u';
      }
    }
  }

  /** The scoped id, seen from outside: the same tenant and user, or without tenants
      the same sanitized user. */
  predicate SameUser(c: Caller, c': Caller)
    requires c.userId.Some? && c'.userId.Some?
  {
    if HasTenant(c.tenantId) || HasTenant(c'.tenantId) then c.tenantId == c'.tenantId && c.userId == c'.userId
    else SanitizeScopeId(c.userId.value) == SanitizeScopeId(c'.userId.value)
  }

  /** The two hashes that can put strangers into one partition. */
  ghost predicate UsersCollide(hash: Hash, c: Caller, c': Caller)
    requires c.userId.Some? && c'.userId.Some?
  {
    && HasTenant(c.tenantId) && HasTenant(c'.tenantId)
    && Collide(hash, Material(c.tenantId.value, c.userId.value), Material(c'.tenantId.value, c'.userId.value))
  }

  ghost predicate SessionsCollide(hash: Hash, mode: ScopeMode, c: Caller, c': Caller)
    requires c.userId.Some? && c'.userId.Some?
  {
    var s, s' := EffectiveSession(mode, c), EffectiveSession(mode, c');
    && s.Some? && s'.Some?
    && Collide(hash, Material(ScopedUserId(hash, c.tenantId, c.userId.value), s.value),
                     Material(ScopedUserId(hash, c'.tenantId, c'.userId.value), s'.value))
  }

  lemma SameScopedUser(hash: Hash, c: Caller, c': Caller)
    requires c.userId.Some? && c'.userId.Some?
    requires ScopedUserId(hash, c.tenantId, c.userId.value) != "" && ScopedUserId(hash, c'.tenantId, c'.userId.value) != ""
    ensures
      var u, u' := ScopedUserId(hash, c.tenantId, c.userId.value), ScopedUserId(hash, c'.tenantId, c'.userId.value);
      && (SameUser(c, c') ==> u == u')
      && (u == u' ==> SameUser(c, c') || UsersCollide(hash, c, c'))
  {
    hide Material, SanitizeScopeId;
    var t, t' := c.tenantId, c'.tenantId;
    if ScopedUserId(hash, t, c.userId.value) == ScopedUserId(hash, t', c'.userId.value) {
      if HasTenant(t) && HasTenant(t') {
        TenantedInjective(hash, t, c.userId.value, t', c'.userId.value);
      } else if HasTenant(t) {
        TenantedDisjoint(hash, t, c.userId.value, t', c'.userId.value);
      } else if HasTenant(t') {
        TenantedDisjoint(hash, t', c'.userId.value, t, c.userId.value);
      }
    }
  }

  /** In terms of tenant, user and session: two callers share a partition of an
      unshared cache if they are the same user of the same tenant in the same
      session, and only then unless one of two hashes collides. */
  lemma PartitionOfCaller(hash: Hash, mode: ScopeMode, c: Caller, c': Caller)
    ensures
      var k, k' := BuildScopeKey(hash, mode, Some(c)), BuildScopeKey(hash, mode, Some(c'));
      mode != Shared && k.Some? && k'.Some? ==>
        var same := SameUser(c, c') && EffectiveSession(mode, c) == EffectiveSession(mode, c');
        && (same ==> k == k')
        && (k == k' ==> same || UsersCollide(hash, c, c') || SessionsCollide(hash, mode, c, c'))
  {
    hide Material, SanitizeScopeId, SameUser, UsersCollide;
    var k, k' := BuildScopeKey(hash, mode, Some(c)), BuildScopeKey(hash, mode, Some(c'));
    if mode != Shared && k.Some? && k'.Some? {
      PartitionIdentity(hash, mode, c, c');
      SameScopedUser(hash, c, c');
    }
  }

  // ---- What the scope modes mean, caller by caller ----

  /** When a request can be cached at all: always in a shared cache, and otherwise for
      a caller with a user id that is not blank. */
  lemma KeyExists(hash: Hash, mode: ScopeMode, caller: Option<Caller>)
    ensures BuildScopeKey(hash, mode, caller).Some? <==>
      || mode == Shared
      || (&& (mode == PerUser || mode == PerSession)
          && caller.Some? && caller.value.userId.Some? && !Blank(caller.value.userId.value))
  {
    hide Strip, Material;
  }

  /** A shared cache has one partition for everyone. */
  lemma SharedIsOne(hash: Hash, caller: Option<Caller>, other: Option<Caller>)
    ensures BuildScopeKey(hash, Shared, caller) == BuildScopeKey(hash, Shared, other) == Some("shared")
  {
  }

  /** Per user, sessions make no difference. */
  lemma PerUserIgnoresSessions(hash: Hash, c: Caller, c': Caller)
    requires c.userId == c'.userId && c.tenantId == c'.tenantId
    ensures BuildScopeKey(hash, PerUser, Some(c)) == BuildScopeKey(hash, PerUser, Some(c'))
  {
  }

  /** Per session, a caller without one gets the partition of the user, and a caller
      with one never does. */
  lemma PerSessionFallsBack(hash: Hash, c: Caller)
    ensures
      var key, user := BuildScopeKey(hash, PerSession, Some(c)), BuildScopeKey(hash, PerUser, Some(c));
      if c.sessionId.None? || Blank(c.sessionId.value) then key == user else key.Some? ==> key != user
  {
    hide Strip, Material;
    var key, user := BuildScopeKey(hash, PerSession, Some(c)), BuildScopeKey(hash, PerUser, Some(c));
    if c.sessionId.Some? && !Blank(c.sessionId.value) && key.Some? {
      assert key.value[0] == 's' && user.value[0] == 'u';
    }
  }

  /** Per session, two sessions of one user have two partitions, or the hash collides. */
  lemma PerSessionSeparates(hash: Hash, c: Caller, c': Caller)
    requires c.userId == c'.userId && c.tenantId == c'.tenantId
    requires c.sessionId.Some? && c'.sessionId.Some? && c.sessionId != c'.sessionId
    requires !Blank(c.sessionId.value) && !Blank(c'.sessionId.value)
    ensures
      var key, key' := BuildScopeKey(hash, PerSession, Some(c)), BuildScopeKey(hash, PerSession, Some(c'));
      key.Some? && key == key' ==>
        var user := ScopedUserId(hash, c.tenantId, c.userId.value);
        Collide(hash, Material(user, c.sessionId.value), Material(user, c'.sessionId.value))
  {
    hide Strip, Material;
    if BuildScopeKey(hash, PerSession, Some(c)).Some? { PartitionIdentity(hash, PerSession, c, c'); }
  }

  /** Whose partition a purge hits: the key of a caller exactly when that
      caller is the purged scoped user and not narrowed to a session. */
  lemma PurgeHits(hash: Hash, mode: ScopeMode, c: Caller, user: string, tenant: Option<string>)
    requires BuildScopeKey(hash, mode, Some(c)).Some? && PurgeKey(hash, user, tenant).Some?
    ensures BuildScopeKey(hash, mode, Some(c)) == PurgeKey(hash, user, tenant)
        <==> && mode != Shared && EffectiveSession(mode, c).None?
             && ScopedUserId(hash, c.tenantId, c.userId.value) == ScopedUserId(hash, tenant, user)
  {
    var k, p := BuildScopeKey(hash, mode, Some(c)).value, PurgeKey(hash, user, tenant).value;
    assert p[0] == 'u' && p[5..] == ScopedUserId(hash, tenant, user);
    if mode != Shared && EffectiveSession(mode, c).None? {
      assert k[5..] == ScopedUserId(hash, c.tenantId, c.userId.value);
    } else {
      assert k[0] == 's';
    }
  }

  // ---- CallerContext.isolation_key ----

  predicate HasDoubleColon(s: string) {
    exists i :: 0 <= i < |s| - 1 && s[i] == ':' && s[i + 1] == ':'
  }

  datatype CallerError = BlankTenant | ColonInTenant | DoubleColonInUser

  /** `CallerContext.__post_init__`: the error it raises, if any. */
  function Validate(c: Caller): Option<CallerError> {
    if c.tenantId.Some? && Blank(c.tenantId.value) then Some(BlankTenant)
    else if c.tenantId.Some? && ':' in c.tenantId.value then Some(ColonInTenant)
    else if c.userId.Some? && HasDoubleColon(c.userId.value) then Some(DoubleColonInUser)
    else None
  }

  function IsolationKey(c: Caller): Option<string> {
    if c.userId.None? then None
    else if HasTenant(c.tenantId) then Some(c.tenantId.value + "::" + c.userId.value)
    else c.userId
  }

  /** The isolation key identifies tenant and user, on every caller that passes
      validation; in particular tenanted and untenanted keys never meet. */
  lemma IsolationKeyInjective(c: Caller, c': Caller)
    requires Validate(c).None? && Validate(c').None?
    ensures IsolationKey(c).None? <==> c.userId.None?
    ensures IsolationKey(c).Some? ==>
              (IsolationKey(c) == IsolationKey(c') <==> c.tenantId == c'.tenantId && c.userId == c'.userId)
  {
    if c.userId.Some? && IsolationKey(c) == IsolationKey(c') {
      if HasTenant(c.tenantId) && HasTenant(c'.tenantId) {
        TenantedKey(c);
        TenantedKey(c');
      } else if HasTenant(c.tenantId) {
        TenantedKey(c);
      } else if HasTenant(c'.tenantId) {
        TenantedKey(c');
      }
    }
  }

  /** A tenanted key contains "::", and its first colon ends the tenant. */
  lemma TenantedKey(c: Caller)
    requires Validate(c).None? && HasTenant(c.tenantId) && c.userId.Some?
    ensures
      var k := IsolationKey(c).value;
      var n := IndexOf(k, ':');
      && HasDoubleColon(k)
      && n + 2 <= |k| && k[..n] == c.tenantId.value && k[n + 2..] == c.userId.value
  {
    var t, u := c.tenantId.value, c.userId.value;
    var k := t + "::" + u;
    assert k == t + [':'] + (":" + u);
    IndexOfSplit(t, ':', ":" + u);
    assert k[|t|] == ':' && k[|t| + 1] == ':';
  }

  /** Why the user id must be free of "::": an untenanted user rejected for it has the
      key of an accepted caller of some tenant, wherever the part before names one. */
  lemma DoubleColonCollides(user: string, i: nat)
    requires i + 2 <= |user| && user[i..i + 2] == "::"
    ensures Validate(Caller(Some(user), None, None)) == Some(DoubleColonInUser)
    ensures
      var c := Caller(Some(user[i + 2..]), Some(user[..i]), None);
      Validate(c).None? ==> IsolationKey(c) == IsolationKey(Caller(Some(user), None, None))
  {
    assert user[i..i + 2][0] == ':' && user[i..i + 2][1] == ':';
    assert user[i] == ':' && user[i + 1] == ':';
    assert user == user[..i] + "::" + user[i + 2..];
  }

  /** Why the tenant must be colon-free: banning "::" in each part alone would
      let two different callers share a key. */
  lemma ColonAtBoundaryCollides()
    ensures
      var c := Caller(Some(":b"), Some("a"), None);
      var c' := Caller(Some("b"), Some("a:"), None);
      && !HasDoubleColon("a:") && !HasDoubleColon("b") && !HasDoubleColon(":b")
      && Validate(c).None? && Validate(c') == Some(ColonInTenant)
      && IsolationKey(c) == IsolationKey(c') == Some("a:::b")
  {
    assert "a" + "::" + ":b" == "a:" + "::" + "b" == "a:::b";
    assert LStrip("a") == "a" && LStrip("a:") == "a:";
    assert "a:"[1] == ':';
  }
}
