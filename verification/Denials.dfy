/** `_DenialTracker`: how often a reviewer denied a tool lately. */
module Denials {
  import opened Text
  import opened Collections

  const MAX_KEYS: nat := 10_000

  type Key = string

  /** The ordered dictionary `_denials`, from keys to times. */
  type Dict = seq<Item<seq<real>>>

  function Keys(d: Dict): set<Key> { set x | x in d :: x.key }

  function TimesOf(d: Dict, key: Key): seq<real> {
    if d == [] then [] else if d[0].key == key then d[0].value else TimesOf(d[1..], key)
  }

  /** The times that still count at `now`. */
  function InWindow(times: seq<real>, window: Option<real>, now: real): (r: seq<real>)
    ensures |r| <= |times|
  {
    if times == [] then []
    else
      var n := |times| - 1;
      InWindow(times[..n], window, now)
      + if window.None? || times[n] > now - window.value then [times[n]] else []
  }

  /** The list of `key` replaced where it stands. */
  function SetTimes(d: Dict, key: Key, times: seq<real>): (r: Dict)
    ensures |r| == |d| && forall i :: 0 <= i < |d| ==> r[i] == if d[i].key == key then Item(key, times) else d[i]
  {
    seq(|d|, i requires 0 <= i < |d| => if d[i].key == key then Item(key, times) else d[i])
  }

  function AfterCount(d: Dict, window: Option<real>, key: Key, now: real): Dict {
    var left := InWindow(TimesOf(d, key), window, now);
    if TimesOf(d, key) == [] || window.None? then d
    else if left == [] then Remove(d, key)
    else SetTimes(d, key, left)
  }

  function AfterRecord(d: Dict, key: Key, now: real): Dict {
    Newest(Remove(d, key) + [Item(key, TimesOf(d, key) + [now])], MAX_KEYS)
  }

  function Count(d: Dict, window: Option<real>, key: Key, now: real): nat {
    |InWindow(TimesOf(d, key), window, now)|
  }

  // ---- Lookups after updates ----

  lemma {:induction false} TimesMissing(d: Dict, key: Key)
    requires forall x :: x in d ==> x.key != key
    ensures TimesOf(d, key) == []
  {
    if d != [] { TimesMissing(d[1..], key); }
  }

  lemma {:induction false} TimesFound(d: Dict, i: nat)
    requires Distinct(d) && i < |d|
    ensures TimesOf(d, d[i].key) == d[i].value
  {
    if i > 0 { TimesFound(d[1..], i - 1); }
  }

  lemma {:induction false} TimesAfterRemove(d: Dict, removed: Key, key: Key)
    ensures TimesOf(Remove(d, removed), key) == if key == removed then [] else TimesOf(d, key)
  {
    if d != [] {
      var r := Remove(d, removed);
      TimesAfterRemove(d[1..], removed, key);
      assert r == if d[0].key == removed then Remove(d[1..], removed) else [d[0]] + Remove(d[1..], removed);
      if d[0].key != removed { assert r[1..] == Remove(d[1..], removed); }
    }
  }

  lemma {:induction false} TimesAfterSet(d: Dict, set_: Key, times: seq<real>, key: Key)
    requires TimesOf(d, set_) != []
    ensures TimesOf(SetTimes(d, set_, times), key) == if key == set_ then times else TimesOf(d, key)
  {
    var r := SetTimes(d, set_, times);
    assert r[1..] == SetTimes(d[1..], set_, times);
    if d[0].key != set_ {
      TimesAfterSet(d[1..], set_, times, key);
    } else if key != set_ {
      TimesUnset(d[1..], set_, times, key);
    }
  }

  lemma {:induction false} TimesUnset(d: Dict, set_: Key, times: seq<real>, key: Key)
    requires key != set_
    ensures TimesOf(SetTimes(d, set_, times), key) == TimesOf(d, key)
  {
    if d != [] {
      assert SetTimes(d, set_, times)[1..] == SetTimes(d[1..], set_, times);
      TimesUnset(d[1..], set_, times, key);
    }
  }

  lemma {:induction false} TimesAfterAppend(d: Dict, x: Item<seq<real>>, key: Key)
    ensures TimesOf(d + [x], key) ==
            if exists y :: y in d && y.key == key then TimesOf(d, key) else if x.key == key then x.value else []
  {
    if d == [] {
      assert d + [x] == [x];
      assert [x][1..] == [];
    } else {
      assert (d + [x])[1..] == d[1..] + [x];
      TimesAfterAppend(d[1..], x, key);
      assert d == [d[0]] + d[1..];
    }
  }

  /** The dictionary before the oldest key is dropped. */
  function Recorded(d: Dict, key: Key, now: real): Dict {
    Remove(d, key) + [Item(key, TimesOf(d, key) + [now])]
  }

  lemma RecordedKeeps(d: Dict, key: Key, now: real)
    requires Distinct(d)
    ensures Distinct(Recorded(d, key, now))
    ensures |Recorded(d, key, now)| <= |d| + 1
    ensures forall k :: TimesOf(Recorded(d, key, now), k) == if k == key then TimesOf(d, key) + [now] else TimesOf(d, k)
  {
    hide Remove, TimesOf;
    var r := Remove(d, key);
    var x := Item(key, TimesOf(d, key) + [now]);
    RemoveDistinct(d, key);
    assert forall i :: 0 <= i < |r| ==> r[i] in r;
    forall k
      ensures TimesOf(r + [x], k) == if k == key then TimesOf(d, key) + [now] else TimesOf(d, k)
    {
      TimesAfterAppend(r, x, k);
      TimesAfterRemove(d, key, k);
      if !exists y :: y in r && y.key == k { TimesMissing(r, k); }
    }
  }

  /** Dropping the oldest key changes nothing for the others. */
  lemma {:induction false} TimesAfterDrop(d: Dict, n: nat, key: Key)
    requires Distinct(d) && n <= |d|
    ensures TimesOf(d[n..], key) == if key in Keys(d[n..]) then TimesOf(d, key) else []
  {
    hide TimesOf;
    if key in Keys(d[n..]) {
      var x :| x in d[n..] && x.key == key;
      var i :| 0 <= i < |d[n..]| && d[n..][i] == x;
      TimesFound(d[n..], i);
      TimesFound(d, n + i);
    } else {
      TimesMissing(d[n..], key);
    }
  }

  // ---- The object ----

  class DenialTracker {
    const window: Option<real>
    var denials: Dict

    ghost predicate Valid()
      reads this
    {
      Distinct(denials) && |denials| <= MAX_KEYS
    }

    constructor (w: Option<real>)
      ensures Valid() && window == w && denials == []
    {
      window, denials := w, [];
    }

    method CountOf(key: Key, now: real) returns (n: nat)
      requires Valid()
      modifies this
      ensures Valid()
      ensures n == Count(old(denials), window, key, now)
      ensures denials == AfterCount(old(denials), window, key, now)
    {
      hide Remove, TimesOf;
      WindowNone(TimesOf(denials, key), now);
      RemoveDistinct(denials, key);
      var times := TimesOf(denials, key);
      if times == [] {
        return 0;
      }
      if window.Some? {
        times := InWindow(times, window, now);
        if times == [] {
          denials := Remove(denials, key);
          return 0;
        }
        denials := SetTimes(denials, key, times);
      }
      n := |times|;
    }

    method Record(key: Key, now: real)
      requires Valid()
      modifies this
      ensures Valid() && denials == AfterRecord(old(denials), key, now)
    {
      hide Remove, TimesOf;
      RecordedKeeps(denials, key, now);
      denials := Remove(denials, key) + [Item(key, TimesOf(denials, key) + [now])];
      ghost var full := denials;
      while |denials| > MAX_KEYS
        invariant |denials| <= |full| && denials == full[|full| - |denials|..]
        invariant |denials| < |full| ==> |denials| >= MAX_KEYS
        decreases |denials|
      {
        denials := denials[1..];
      }
    }

    method Clear(key: Key)
      requires Valid()
      modifies this
      ensures Valid() && denials == Remove(old(denials), key)
    {
      RemoveDistinct(denials, key);
      denials := Remove(denials, key);
    }
  }

  lemma {:induction false} WindowNone(times: seq<real>, now: real)
    ensures InWindow(times, None, now) == times
  {
    if times != [] {
      WindowNone(times[..|times| - 1], now);
    }
  }

  // ---- Whole runs ----

  /** `Pass` is time passing without a call of the tracker. */
  datatype Op =
    | Counted(key: Key, now: real)
    | Denied(key: Key, now: real)
    | Approved(key: Key, now: real)
    | Pass(now: real)

  function Apply(window: Option<real>, d: Dict, op: Op): Dict {
    match op
    case Counted(key, now) => AfterCount(d, window, key, now)
    case Denied(key, now) => AfterRecord(d, key, now)
    case Approved(key, _) => Remove(d, key)
    case Pass(_) => d
  }

  ghost predicate Run(window: Option<real>, states: seq<Dict>, ops: seq<Op>) {
    && |states| == |ops| + 1 && states[0] == []
    && (forall i :: 0 <= i < |ops| ==> states[i + 1] == Apply(window, states[i], ops[i]))
    && (forall i, j :: 0 <= i < j < |ops| ==> ops[i].now <= ops[j].now)
  }

  /** The key was the least recently denied of too many. */
  predicate Displaced(d: Dict, op: Op, key: Key) {
    op.Denied? && op.key != key && key in Keys(d) && key !in Keys(AfterRecord(d, op.key, op.now))
  }

  /** The denials of `key` in the first `n` operations since it was last approved or displaced. */
  function SinceReset(states: seq<Dict>, ops: seq<Op>, key: Key, n: nat): seq<real>
    requires |states| == |ops| + 1 && n <= |ops|
  {
    if n == 0 then []
    else
      var op := ops[n - 1];
      if (op.Approved? && op.key == key) || Displaced(states[n - 1], op, key) then []
      else SinceReset(states, ops, key, n - 1) + if op.Denied? && op.key == key then [op.now] else []
  }

  /** The same without displacement, a function of the operations alone. */
  function SinceApproved(ops: seq<Op>, key: Key, n: nat): seq<real>
    requires n <= |ops|
  {
    if n == 0 then []
    else
      var op := ops[n - 1];
      if op.Approved? && op.key == key then []
      else SinceApproved(ops, key, n - 1) + if op.Denied? && op.key == key then [op.now] else []
  }

  /** A time outside the window stays outside it. */
  lemma {:induction false} WindowTwice(times: seq<real>, window: Option<real>, t: real, u: real)
    requires t <= u
    ensures InWindow(InWindow(times, window, t), window, u) == InWindow(times, window, u)
  {
    if times != [] {
      var n := |times| - 1;
      WindowTwice(times[..n], window, t, u);
      var kept := InWindow(times[..n], window, t);
      WindowAppend(kept, times[n], window, u);
      assert kept + [] == kept;
    }
  }

  lemma WindowAppend(times: seq<real>, x: real, window: Option<real>, now: real)
    ensures InWindow(times + [x], window, now)
         == InWindow(times, window, now) + if window.None? || x > now - window.value then [x] else []
  {
    assert (times + [x])[..|times|] == times;
  }

  lemma {:induction false} RunDistinct(window: Option<real>, states: seq<Dict>, ops: seq<Op>, n: nat)
    requires Run(window, states, ops) && n <= |ops|
    ensures Distinct(states[n])
  {
    hide Remove, TimesOf;
    if n > 0 {
      var d, op := states[n - 1], ops[n - 1];
      RunDistinct(window, states, ops, n - 1);
      assert states[n - 1 + 1] == Apply(window, d, op);
      if !op.Pass? {
        RemoveDistinct(d, op.key);
        RecordedKeeps(d, op.key, op.now);
      }
    }
  }

  /** Pruning never loses a denial that could still count: before operation `n`
      the stored times and the history agree on every later window. */
  lemma {:induction false} StoredAgrees(window: Option<real>, states: seq<Dict>, ops: seq<Op>, key: Key, n: nat, t: real)
    requires Run(window, states, ops) && n <= |ops|
    requires n > 0 ==> ops[n - 1].now <= t
    ensures InWindow(TimesOf(states[n], key), window, t) == InWindow(SinceReset(states, ops, key, n), window, t)
    decreases n
  {
    hide Remove, TimesOf, InWindow, SetTimes;
    if n == 0 {
      TimesMissing(states[0], key);
    } else {
      var d, op := states[n - 1], ops[n - 1];
      RunDistinct(window, states, ops, n - 1);
      assert states[n - 1 + 1] == Apply(window, d, op);
      assert n > 1 ==> ops[n - 2].now <= op.now;
      StoredAgrees(window, states, ops, key, n - 1, t);
      StepAgrees(window, d, op, key, t);
      WindowAppend(TimesOf(d, key), op.now, window, t);
      var history := SinceReset(states, ops, key, n - 1);
      WindowAppend(history, op.now, window, t);
      assert history + [] == history;
    }
  }

  /** One operation changes the windowed times of a key as it should. */
  lemma StepAgrees(window: Option<real>, d: Dict, op: Op, key: Key, t: real)
    requires Distinct(d) && op.now <= t
    ensures
      var after := TimesOf(Apply(window, d, op), key);
      if (op.Approved? && op.key == key) || Displaced(d, op, key) then after == []
      else if op.Denied? && op.key == key then after == TimesOf(d, key) + [op.now]
      else InWindow(after, window, t) == InWindow(TimesOf(d, key), window, t)
  {
    hide Remove, TimesOf, InWindow, SetTimes;
    match op {
      case Pass(_) =>
      case Approved(k, now) =>
        TimesAfterRemove(d, k, key);
      case Denied(k, now) =>
        DeniedTimes(d, k, now, key);
      case Counted(k, now) =>
        var left := InWindow(TimesOf(d, k), window, now);
        WindowTwice(TimesOf(d, k), window, now, t);
        if !(TimesOf(d, k) == [] || window.None?) {
          TimesAfterRemove(d, k, key);
          TimesAfterSet(d, k, left, key);
        }
    }
  }

  lemma DeniedTimes(d: Dict, denied: Key, now: real, key: Key)
    requires Distinct(d)
    ensures
      var after := TimesOf(AfterRecord(d, denied, now), key);
      if key == denied then after == TimesOf(d, key) + [now]
      else if Displaced(d, Denied(denied, now), key) then after == []
      else after == TimesOf(d, key)
  {
    hide TimesOf, Remove;
    var full := Recorded(d, denied, now);
    RecordedKeeps(d, denied, now);
    var n := if |full| <= MAX_KEYS then 0 else |full| - MAX_KEYS;
    assert AfterRecord(d, denied, now) == full[n..];
    TimesAfterDrop(full, n, key);
    var last := full[|full| - 1];
    assert full[n..][|full| - n - 1] == last;
    assert last in full[n..] && last.key == denied;
    if key !in Keys(full[n..]) && key !in Keys(d) {
      assert forall x :: x in d ==> x.key in Keys(d);
      TimesMissing(d, key);
    }
  }

  /** How many times lie in the window, counted by position. */
  lemma {:induction false} WindowCount(times: seq<real>, window: Option<real>, now: real)
    ensures |InWindow(times, window, now)|
      == |set i: nat | i < |times| && (window.None? || times[i] > now - window.value)|
  {
    var hits := set i: nat | i < |times| && (window.None? || times[i] > now - window.value);
    if times == [] {
      assert hits == {};
    } else {
      var n := |times| - 1;
      WindowCount(times[..n], window, now);
      var before := set i: nat | i < |times[..n]| && (window.None? || times[..n][i] > now - window.value);
      assert hits == before + if window.None? || times[n] > now - window.value then {n} else {};
    }
  }

  // ---- Main results ----

  /** `count` returns the number of denials since the last reset that lie inside
      the window, although pruning threw the older ones away. */
  lemma CountIsWindowed(window: Option<real>, states: seq<Dict>, ops: seq<Op>, n: nat)
    requires Run(window, states, ops) && n < |ops| && ops[n].Counted?
    ensures Count(states[n], window, ops[n].key, ops[n].now)
         == |InWindow(SinceReset(states, ops, ops[n].key, n), window, ops[n].now)|
  {
    assert n > 0 ==> ops[n - 1].now <= ops[n].now;
    StoredAgrees(window, states, ops, ops[n].key, n, ops[n].now);
  }

  function DeniedKeys(ops: seq<Op>): set<Key> {
    set op | op in ops && op.Denied? :: op.key
  }

  lemma {:induction false} KeysWereDenied(window: Option<real>, states: seq<Dict>, ops: seq<Op>, n: nat)
    requires Run(window, states, ops) && n <= |ops|
    ensures Keys(states[n]) <= DeniedKeys(ops)
  {
    hide Remove, TimesOf;
    if n > 0 {
      var d, op := states[n - 1], ops[n - 1];
      KeysWereDenied(window, states, ops, n - 1);
      assert states[n - 1 + 1] == Apply(window, d, op);
      forall x | x in states[n]
        ensures x.key in DeniedKeys(ops)
      {
        if op.Denied? && x.key == op.key {
          assert op in ops;
        } else {
          assert x.key in Keys(d) by {
            if op.Denied? {
              assert x in Recorded(d, op.key, op.now);
            } else if x !in d {
              var i :| 0 <= i < |states[n]| && states[n][i] == x;
              assert d[i] in d;
            }
          }
        }
      }
    }
  }

  /** With no more denied keys than `MAX_KEYS`, nothing is ever displaced. */
  lemma {:induction false} FewKeysNeverDisplaced(window: Option<real>, states: seq<Dict>, ops: seq<Op>, key: Key, n: nat)
    requires Run(window, states, ops) && n <= |ops| && |DeniedKeys(ops)| <= MAX_KEYS
    ensures SinceReset(states, ops, key, n) == SinceApproved(ops, key, n)
  {
    hide Remove, TimesOf, Apply, DeniedKeys;
    if n > 0 {
      FewKeysNeverDisplaced(window, states, ops, key, n - 1);
      if ops[n - 1].Denied? {
        DeniedNotFull(window, states, ops, n - 1);
        NotFullNotDisplaced(states[n - 1], ops[n - 1], key);
      }
    }
  }

  lemma DeniedNotFull(window: Option<real>, states: seq<Dict>, ops: seq<Op>, n: nat)
    requires Run(window, states, ops) && n < |ops| && ops[n].Denied?
    ensures |Recorded(states[n], ops[n].key, ops[n].now)| <= |DeniedKeys(ops)|
  {
    hide Remove, TimesOf;
    var d, op := states[n], ops[n];
    RunDistinct(window, states, ops, n);
    KeysWereDenied(window, states, ops, n);
    RecordedKeeps(d, op.key, op.now);
    assert op in ops;
    forall x | x in Recorded(d, op.key, op.now)
      ensures x.key in DeniedKeys(ops)
    {
      if x.key != op.key { assert x.key in Keys(d); }
    }
    DistinctCount(Recorded(d, op.key, op.now), DeniedKeys(ops));
  }

  lemma NotFullNotDisplaced(d: Dict, op: Op, key: Key)
    requires op.Denied? && |Recorded(d, op.key, op.now)| <= MAX_KEYS
    ensures !Displaced(d, op, key)
  {
    hide TimesOf;
    if op.key != key && key in Keys(d) {
      var x :| x in d && x.key == key;
      assert x in Recorded(d, op.key, op.now);
    }
  }
}
