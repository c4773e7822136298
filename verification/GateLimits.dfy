/** When the gate denies by itself, said of what happened in the run: how the calls
    of a tool ended, which questions are out and which ids were decided. */
module GateLimits {
  import opened Text
  import opened Collections
  import opened ApprovalTypes
  import opened ApprovalGate
  import Denials
  import RequestIds

  // ---- What counts against a tool ----

  /** This step ends a question about `key` with a reviewer's no, or with a timeout
      that denies. */
  predicate CountsAgainst(p: Policy, w: World, a: Action, key: string) {
    && a.Resolve? && a.c in w.calls && w.calls[a.c].key == key
    && match a.outcome
       case Returned(d) => d.decidedBy == Reviewer && !d.approved
       case TimedOut => !p.allowOnTimeout
       case Raised => false
       case Cancelled => false
  }

  /** This step ends a question about `key` with a reviewer's yes. */
  predicate Forgives(w: World, a: Action, key: string) {
    && a.Resolve? && a.c in w.calls && w.calls[a.c].key == key
    && a.outcome.Returned? && a.outcome.decision.decidedBy == Reviewer && a.outcome.decision.approved
  }

  /** A no for another tool pushed this one, the least recently denied of too many,
      out of the table. */
  predicate Dropped(p: Policy, w: World, w': World, a: Action, key: string) {
    && a.Resolve? && a.c in w.calls && w.calls[a.c].key != key && CountsAgainst(p, w, a, w.calls[a.c].key)
    && key in Denials.Keys(w.gate.denials) && key !in Denials.Keys(w'.gate.denials)
  }

  /** When `key` was denied in the first `n` steps, since it was last forgiven or dropped. */
  function History(p: Policy, ws: seq<World>, as_: seq<Action>, key: string, n: nat): seq<real>
    requires |ws| == |as_| + 1 && n <= |as_|
  {
    if n == 0 then []
    else if Forgives(ws[n - 1], as_[n - 1], key) || Dropped(p, ws[n - 1], ws[n], as_[n - 1], key) then []
    else History(p, ws, as_, key, n - 1) + if CountsAgainst(p, ws[n - 1], as_[n - 1], key) then [as_[n - 1].now] else []
  }

  lemma OpOfStep(p: Policy, w: World, a: Action, key: string)
    requires Enabled(w, a)
    ensures
      var op := TrackerOp(p, w, a);
      && (Forgives(w, a, key) <==> op.Approved? && op.key == key)
      && (CountsAgainst(p, w, a, key) <==> op.Denied? && op.key == key)
      && (op.Denied? ==> op.now == a.now && a.Resolve? && a.c in w.calls && w.calls[a.c].key == op.key)
      && Step(p, w, a).gate.denials == Denials.Apply(p.denyWindow, w.gate.denials, op)
  {
    hide Admit, Final, Denials.AfterCount, Denials.AfterRecord, Collections.Remove, RequestIds.AfterClaim;
  }

  lemma {:induction false} HistoryIsTracked(p: Policy, ws: seq<World>, as_: seq<Action>, key: string, n: nat)
    requires Run(p, ws, as_) && n <= |as_|
    ensures History(p, ws, as_, key, n) == Denials.SinceReset(TrackerStates(ws), TrackerOps(p, ws, as_), key, n)
  {
    hide Step, TrackerOp, CountsAgainst, Forgives, Denials.AfterRecord, Denials.AfterCount, Collections.Remove, Denials.Keys;
    if n > 0 {
      HistoryIsTracked(p, ws, as_, key, n - 1);
      var w, a := ws[n - 1], as_[n - 1];
      assert ws[n - 1 + 1] == Step(p, w, a) && Enabled(w, a);
      OpOfStep(p, w, a, key);
      if a.Resolve? && a.c in w.calls { OpOfStep(p, w, a, w.calls[a.c].key); }
    }
  }

  // ---- The table is large enough for few tools ----

  function StartedKeys(as_: seq<Action>): set<string> {
    set a | a in as_ && a.Start? :: a.key
  }

  lemma {:induction false} CallWasStarted(p: Policy, ws: seq<World>, as_: seq<Action>, n: nat, c: nat)
    requires Run(p, ws, as_) && n <= |as_| && c in ws[n].calls
    ensures ws[n].calls[c].key in StartedKeys(as_)
  {
    hide AfterStart, AfterResolve, Admit, Final, StartedKeys;
    var w, a := ws[n - 1], as_[n - 1];
    assert ws[n - 1 + 1] == Step(p, w, a) && Enabled(w, a);
    if a.Start? && a.c == c {
      StartedHere(as_, n - 1);
    } else {
      CallWasStarted(p, ws, as_, n - 1, c);
    }
  }

  lemma StartedHere(as_: seq<Action>, i: nat)
    requires i < |as_| && as_[i].Start?
    ensures as_[i].key in StartedKeys(as_)
  {
    assert as_[i] in as_;
  }

  lemma DeniedWereStarted(p: Policy, ws: seq<World>, as_: seq<Action>)
    requires Run(p, ws, as_)
    ensures Denials.DeniedKeys(TrackerOps(p, ws, as_)) <= StartedKeys(as_)
  {
    hide Step, StartedKeys, Admit, Final;
    var ops := TrackerOps(p, ws, as_);
    forall op | op in ops && op.Denied?
      ensures op.key in StartedKeys(as_)
    {
      var i :| 0 <= i < |ops| && ops[i] == op;
      assert Enabled(ws[i], as_[i]);
      OpOfStep(p, ws[i], as_[i], op.key);
      CallWasStarted(p, ws, as_, i, as_[i].c);
    }
  }

  /** With at most ten thousand tools and callers, nothing is ever dropped: the
      history is every no since the last yes. */
  lemma FewKeysAreKept(p: Policy, ws: seq<World>, as_: seq<Action>, n: nat, key: string)
    requires Run(p, ws, as_) && n < |as_| && |StartedKeys(as_)| <= 10_000
    ensures !Dropped(p, ws[n], ws[n + 1], as_[n], key)
  {
    hide Step, StartedKeys, TrackerOp, CountsAgainst, Denials.Keys, Denials.AfterRecord, Denials.AfterCount, Denials.DeniedKeys;
    var states, ops := TrackerStates(ws), TrackerOps(p, ws, as_);
    assert ws[n + 1] == Step(p, ws[n], as_[n]) && Enabled(ws[n], as_[n]);
    if as_[n].Resolve? && as_[n].c in ws[n].calls {
      OpOfStep(p, ws[n], as_[n], ws[n].calls[as_[n].c].key);
      if ops[n].Denied? {
        TrackerRun(p, ws, as_);
        DeniedWereStarted(p, ws, as_);
        RequestIds.Grows(Denials.DeniedKeys(ops), StartedKeys(as_));
        Denials.DeniedNotFull(p.denyWindow, states, ops, n);
        Denials.NotFullNotDisplaced(states[n], ops[n], key);
      }
    }
  }

  // ---- The limit, exactly ----

  /** A call that finds room is refused for its tool's denials if and only if at least
      the limit of them, in the history of the run, lie in the window. */
  lemma LimitIsExact(p: Policy, ws: seq<World>, as_: seq<Action>, n: nat)
    requires Run(p, ws, as_) && n < |as_| && as_[n].Start? && |Asked(ws[n].calls)| < p.maxPending
    ensures
      var h, now := History(p, ws, as_, as_[n].key, n), as_[n].now;
      var counted := |set i: nat | i < |h| && (p.denyWindow.None? || h[i] > now - p.denyWindow.value)|;
      (Admit(p, ws[n].gate, as_[n].id, as_[n].key, now) == TooManyDenials)
        == (p.maxRetriesAfterDeny.Some? && counted >= p.maxRetriesAfterDeny.value)
  {
    hide Step, History, Denials.InWindow, Denials.SinceReset, Denials.Run, Denials.Apply, Asked;
    PendingIsExact(p, ws, as_, n);
    if p.maxRetriesAfterDeny.Some? {
      TrackerRun(p, ws, as_);
      HistoryIsTracked(p, ws, as_, as_[n].key, n);
      assert TrackerOps(p, ws, as_)[n] == Denials.Counted(as_[n].key, as_[n].now);
      Denials.CountIsWindowed(p.denyWindow, TrackerStates(ws), TrackerOps(p, ws, as_), n);
      Denials.WindowCount(History(p, ws, as_, as_[n].key, n), p.denyWindow, as_[n].now);
    }
  }

  // ---- Room, and ids already decided ----

  /** This step ends the question of a call of that id with a decision. */
  predicate Decides(w: World, a: Action, id: string) {
    a.Resolve? && !a.outcome.Cancelled? && a.c in w.calls && w.calls[a.c].id == id
  }

  /** A call is refused for room exactly when as many questions are out as may be. */
  lemma FullIsExact(p: Policy, ws: seq<World>, as_: seq<Action>, n: nat)
    requires Run(p, ws, as_) && n < |as_| && as_[n].Start?
    ensures Admit(p, ws[n].gate, as_[n].id, as_[n].key, as_[n].now) == Full <==> |Asked(ws[n].calls)| >= p.maxPending
  {
    hide Step, Asked, Denials.Count, RequestIds.Live;
    PendingIsExact(p, ws, as_, n);
  }

  /** An id refused as already used was decided at an earlier step, less than the
      policy's timeout ago. */
  lemma UsedWasDecided(p: Policy, ws: seq<World>, as_: seq<Action>, n: nat) returns (i: nat)
    requires Run(p, ws, as_) && n < |as_| && as_[n].Start?
    requires Admit(p, ws[n].gate, as_[n].id, as_[n].key, as_[n].now) == AlreadyUsed
    ensures i < n && Decides(ws[i], as_[i], as_[n].id) && as_[n].now < as_[i].now + p.timeout
  {
    hide Step, Denials.Count, RequestIds.Live;
    UsedRun(p, ws, as_);
    var c := RequestIds.Config(p.timeout, USED_SIZE);
    var states, ops := UsedStates(ws), UsedOps(ws, as_);
    RequestIds.LiveWasClaimed(c, states, ops, n, as_[n].id, as_[n].now);
    i :| 0 <= i < n && RequestIds.Succeeds(states, ops, i, as_[n].id)
      && as_[n].now < ops[i].now + if ops[i].ttl.Some? && ops[i].ttl.value > 0.0 then ops[i].ttl.value else c.ttl;
    assert ops[i] == UsedOp(ws[i], as_[i]);
  }

  /** An id that was decided cannot be asked about again: not for the policy's timeout
      after the step that decided it, unless ten thousand other ids were decided. */
  lemma DecidedIsNotAsked(p: Policy, ws: seq<World>, as_: seq<Action>, i: nat, n: nat)
    requires Run(p, ws, as_) && i < n < |as_| && as_[n].Start?
    requires Decides(ws[i], as_[i], as_[n].id) && !RequestIds.Live(ws[i].gate.used, as_[n].id, as_[i].now)
    ensures
      || as_[n].now >= as_[i].now + p.timeout
      || |RequestIds.Others(UsedStates(ws), UsedOps(ws, as_), as_[n].id, i + 1, n)| >= 10_000
      || Admit(p, ws[n].gate, as_[n].id, as_[n].key, as_[n].now) != Asking
  {
    hide Step, Denials.Count, RequestIds.Live;
    UsedRun(p, ws, as_);
    var c := RequestIds.Config(p.timeout, USED_SIZE);
    var states, ops := UsedStates(ws), UsedOps(ws, as_);
    assert ops[i] == UsedOp(ws[i], as_[i]);
    ClockRuns(p, ws, as_, n - 1, n);
    RequestIds.Remembered(c, states, ops, i, n, as_[n].id, as_[n].now);
  }

  // ---- What a question comes to ----

  /** How each end of the wait decides the call: the handler's own decision, or a
      gate's denial of a used id; a timeout as the policy says; an error denies; a
      cancellation decides nothing. */
  lemma ResolutionIsExact(p: Policy, w: World, a: Action)
    requires Enabled(w, a) && a.Resolve?
    ensures
      var used := RequestIds.Live(w.gate.used, w.calls[a.c].id, a.now);
      var phase := Step(p, w, a).calls[a.c].phase;
      match a.outcome
      case Cancelled => phase == Ended
      case Returned(d) => phase.Decided? && if used then !phase.decision.approved && phase.decision.decidedBy == Gate else phase.decision == d
      case TimedOut => phase.Decided? && phase.decision.decidedBy == Gate && (phase.decision.approved <==> p.allowOnTimeout && !used)
      case Raised => phase.Decided? && phase.decision.decidedBy == Gate && !phase.decision.approved
  {
    hide RequestIds.AfterClaim, Denials.AfterRecord, Collections.Remove;
  }

  /** A call that is not asked is denied by the gate at once; one that is asked waits. */
  lemma StartIsExact(p: Policy, w: World, a: Action)
    requires Enabled(w, a) && a.Start?
    ensures
      var after := Step(p, w, a);
      && after.calls == w.calls[a.c := after.calls[a.c]] && after.calls[a.c].id == a.id && after.calls[a.c].key == a.key
      && if Admit(p, w.gate, a.id, a.key, a.now) == Asking
         then after.calls[a.c].phase == Waiting && after.gate.pending == w.gate.pending + 1
         else && after.calls[a.c].phase.Decided? && !after.calls[a.c].phase.decision.approved
              && after.calls[a.c].phase.decision.decidedBy == Gate && after.gate.pending == w.gate.pending
  {
    hide Admit, Denials.AfterCount;
  }

  // ---- A call that is over ----

  /** A call whose denial was returned, or whose wait was cancelled, is over: it is
      neither resolved again nor run, and keeps this phase to the end of the run. */
  lemma {:induction false} EndIsFinal(p: Policy, ws: seq<World>, as_: seq<Action>, k: nat, n: nat, c: nat)
    requires Run(p, ws, as_) && k < n <= |as_| && as_[k].c == c
    requires as_[k].End? || (as_[k].Resolve? && as_[k].outcome.Cancelled?)
    ensures c in ws[n].calls && ws[n].calls[c].phase == Ended
    ensures n < |as_| ==> as_[n].c != c
    decreases n
  {
    hide AfterStart, AfterResolve, Admit, Final;
    assert ws[n - 1 + 1] == Step(p, ws[n - 1], as_[n - 1]) && Enabled(ws[n - 1], as_[n - 1]);
    if k < n - 1 {
      EndIsFinal(p, ws, as_, k, n - 1, c);
    }
    if n < |as_| {
      assert Enabled(ws[n], as_[n]);
    }
  }
}
