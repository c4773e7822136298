/** The agent's approval gate: `_ApprovalToolWrapper._arun`, `_check_limits`
    and `_ask` over the `_GateState` that all gated tools of an agent share.

    One action is the code between two suspension points: `Start` runs from
    `_check_limits` to the wait for the handler, `Resolve` from the end of that
    wait to the call of `record_decision`, `Execute` starts the inner tool. */
module ApprovalGate {
  import opened Text
  import Collections
  import opened ApprovalTypes
  import RequestIds
  import Denials

  datatype Policy = Policy(
    maxPending: nat, maxRetriesAfterDeny: Option<nat>, denyWindow: Option<real>,
    allowOnTimeout: bool, timeout: real)

  predicate ValidPolicy(p: Policy) {
    p.maxPending >= 1 && p.timeout > 0.0
  }

  const USED_SIZE: nat := 10_000

  datatype GateValue = GateValue(pending: int, denials: Denials.Dict, used: RequestIds.Dict)

  /** How the wait for the handler ends. */
  datatype Outcome = Returned(decision: Decision) | Raised | TimedOut | Cancelled

  /** What `Start` comes to: a denial by the gate itself, or a question to the handler. */
  datatype Admission = Full | TooManyDenials | AlreadyUsed | Asking

  const GATE_DENIAL := Decision(false, Gate, "denied by the gate")

  // ---- The two pieces of code, as functions ----

  /** `_check_limits` counts denials only below `max_pending` and with a limit. */
  predicate CountsDenials(p: Policy, g: GateValue) {
    g.pending < p.maxPending && p.maxRetriesAfterDeny.Some?
  }

  function Admit(p: Policy, g: GateValue, id: string, key: string, now: real): Admission {
    if g.pending >= p.maxPending then Full
    else if CountsDenials(p, g) && Denials.Count(g.denials, p.denyWindow, key, now) >= p.maxRetriesAfterDeny.value then TooManyDenials
    else if RequestIds.Live(g.used, id, now) then AlreadyUsed
    else Asking
  }

  function AfterStart(p: Policy, g: GateValue, id: string, key: string, now: real): GateValue {
    var denials := if CountsDenials(p, g) then Denials.AfterCount(g.denials, p.denyWindow, key, now) else g.denials;
    GateValue(if Admit(p, g, id, key, now) == Asking then g.pending + 1 else g.pending, denials, g.used)
  }

  /** The decision before the single-use check. */
  function Provisional(p: Policy, outcome: Outcome): Decision
    requires !outcome.Cancelled?
  {
    match outcome
    case Returned(d) => d
    case TimedOut => Decision(p.allowOnTimeout, Gate, "timed out")
    case Raised => Decision(false, Gate, "handler error")
  }

  /** What the outcome does to the denial count of the tool. */
  function DenialOp(p: Policy, outcome: Outcome, key: string, now: real): Denials.Op {
    match outcome
    case Returned(d) =>
      if d.decidedBy != Reviewer then Denials.Pass(now)
      else if d.approved then Denials.Approved(key, now) else Denials.Denied(key, now)
    case TimedOut => if p.allowOnTimeout then Denials.Pass(now) else Denials.Denied(key, now)
    case Raised => Denials.Pass(now)
    case Cancelled => Denials.Pass(now)
  }

  function AfterResolve(p: Policy, g: GateValue, id: string, key: string, outcome: Outcome, now: real): GateValue {
    GateValue(Collections.Max(0, g.pending - 1),
              Denials.Apply(p.denyWindow, g.denials, DenialOp(p, outcome, key, now)),
              if outcome.Cancelled? then g.used else RequestIds.AfterClaim(g.used, id, now, p.timeout, USED_SIZE))
  }

  /** A replayed id is denied whatever the handler decided. */
  function Final(p: Policy, g: GateValue, id: string, outcome: Outcome, now: real): Decision
    requires !outcome.Cancelled?
  {
    if RequestIds.Live(g.used, id, now) then GATE_DENIAL else Provisional(p, outcome)
  }

  // ---- The object ----

  class GateState {
    const policy: Policy
    var pending: int
    const denials: Denials.DenialTracker
    const usedRequestIds: RequestIds.RequestIdCache

    ghost predicate Valid()
      reads this, denials, usedRequestIds
    {
      && ValidPolicy(policy)
      && denials.Valid() && denials.window == policy.denyWindow
      && usedRequestIds.Valid() && usedRequestIds.ttl == policy.timeout && usedRequestIds.maxSize == USED_SIZE
    }

    ghost function State(): GateValue
      reads this, denials, usedRequestIds
    {
      GateValue(pending, denials.denials, usedRequestIds.expires)
    }

    constructor (p: Policy)
      requires ValidPolicy(p)
      ensures Valid() && policy == p && State() == GateValue(0, [], [])
    {
      policy, pending := p, 0;
      denials := new Denials.DenialTracker(p.denyWindow);
      usedRequestIds := new RequestIds.RequestIdCache(p.timeout, USED_SIZE);
    }

    /** `_check_limits`, then `_ask` up to its wait. */
    method Start(id: string, key: string, now: real) returns (admission: Admission)
      requires Valid()
      modifies this`pending, denials
      ensures Valid() && usedRequestIds.expires == old(usedRequestIds.expires)
      ensures admission == Admit(policy, old(State()), id, key, now)
      ensures State() == AfterStart(policy, old(State()), id, key, now)
    {
      hide Collections.Distinct, Denials.InWindow;
      if pending >= policy.maxPending {
        return Full;
      }
      if policy.maxRetriesAfterDeny.Some? {
        var denied := denials.CountOf(key, now);
        if denied >= policy.maxRetriesAfterDeny.value {
          return TooManyDenials;
        }
      }
      var replay := usedRequestIds.Contains(id, now);
      if replay {
        return AlreadyUsed;
      }
      pending := pending + 1;
      admission := Asking;
    }

    /** `_ask` from the end of its wait; None when the task was cancelled. */
    method Resolve(id: string, key: string, outcome: Outcome, now: real) returns (decision: Option<Decision>)
      requires Valid()
      modifies this`pending, denials, usedRequestIds
      ensures Valid()
      ensures State() == AfterResolve(policy, old(State()), id, key, outcome, now)
      ensures decision == if outcome.Cancelled? then None else Some(Final(policy, old(State()), id, outcome, now))
    {
      hide Collections.Distinct, RequestIds.AfterClaim;
      var answer := GATE_DENIAL;
      match outcome {
        case TimedOut =>
          answer := Decision(policy.allowOnTimeout, Gate, "timed out");
          if !answer.approved {
            denials.Record(key, now);
          }
        case Raised =>
          answer := Decision(false, Gate, "handler error");
        case Cancelled =>
        case Returned(d) =>
          answer := d;
          if d.decidedBy == Reviewer {
            if d.approved {
              denials.Clear(key);
            } else {
              denials.Record(key, now);
            }
          }
      }
      pending := Collections.Max(0, pending - 1);
      if outcome.Cancelled? {
        return None;
      }
      var first := usedRequestIds.Claim(id, now, None);
      decision := Some(if first then answer else GATE_DENIAL);
    }
  }

  // ---- Whole runs ----

  datatype Phase = Waiting | Decided(decision: Decision) | Executed | Ended

  /** One gated tool call. */
  datatype Call = Call(id: string, key: string, phase: Phase)

  datatype World = World(gate: GateValue, calls: map<nat, Call>, clock: real)

  datatype Action =
    | Start(c: nat, id: string, key: string, now: real)
    | Resolve(c: nat, outcome: Outcome, now: real)
    | Execute(c: nat, now: real)
    | End(c: nat, now: real)   // the denial is returned, or the task is cancelled

  predicate Enabled(w: World, a: Action) {
    && w.clock <= a.now
    && match a
       case Start(c, _, _, _) => c !in w.calls
       case Resolve(c, _, _) => c in w.calls && w.calls[c].phase == Waiting
       case Execute(c, _) => c in w.calls && w.calls[c].phase.Decided? && w.calls[c].phase.decision.approved
       case End(c, _) => c in w.calls && w.calls[c].phase.Decided?
  }

  function Step(p: Policy, w: World, a: Action): World
    requires Enabled(w, a)
  {
    match a
    case Start(c, id, key, now) =>
      var phase := if Admit(p, w.gate, id, key, now) == Asking then Waiting else Decided(GATE_DENIAL);
      World(AfterStart(p, w.gate, id, key, now), w.calls[c := Call(id, key, phase)], now)
    case Resolve(c, outcome, now) =>
      var call := w.calls[c];
      var phase := if outcome.Cancelled? then Ended else Decided(Final(p, w.gate, call.id, outcome, now));
      World(AfterResolve(p, w.gate, call.id, call.key, outcome, now), w.calls[c := call.(phase := phase)], now)
    case Execute(c, now) => World(w.gate, w.calls[c := w.calls[c].(phase := Executed)], now)
    case End(c, now) => World(w.gate, w.calls[c := w.calls[c].(phase := Ended)], now)
  }

  ghost predicate Run(p: Policy, ws: seq<World>, as_: seq<Action>) {
    && ValidPolicy(p)
    && |ws| == |as_| + 1 && ws[0].gate == GateValue(0, [], []) && ws[0].calls == map[]
    && (forall i :: 0 <= i < |as_| ==> Enabled(ws[i], as_[i]) && ws[i + 1] == Step(p, ws[i], as_[i]))
  }

  ghost function Asked(calls: map<nat, Call>): set<nat> {
    set c | c in calls && calls[c].phase == Waiting
  }

  // ---- Pending is exact ----

  lemma AskedUpdate(calls: map<nat, Call>, c: nat, call: Call)
    ensures |Asked(calls[c := call])| == |Asked(calls)| + (if call.phase == Waiting then 1 else 0)
                                         - (if c in Asked(calls) then 1 else 0)
  {
    var rest := Asked(calls) - {c};
    assert Asked(calls[c := call]) == if call.phase == Waiting then rest + {c} else rest;
  }

  lemma StepCounts(p: Policy, w: World, a: Action)
    requires ValidPolicy(p) && Enabled(w, a) && w.gate.pending == |Asked(w.calls)| <= p.maxPending
    ensures Step(p, w, a).gate.pending == |Asked(Step(p, w, a).calls)| <= p.maxPending
    ensures a.Resolve? ==> w.gate.pending >= 1
  {
    hide Admit, Final, DenialOp, Denials.Apply, Denials.AfterCount, RequestIds.AfterClaim;
    AskedUpdate(w.calls, a.c, Step(p, w, a).calls[a.c]);
    if a.Start? { AdmitNotFull(p, w.gate, a.id, a.key, a.now); }
    if a.Resolve? { assert a.c in Asked(w.calls); }
  }

  lemma AdmitNotFull(p: Policy, g: GateValue, id: string, key: string, now: real)
    ensures Admit(p, g, id, key, now) == Asking ==> g.pending < p.maxPending
  {
  }

  /** `pending` is the number of questions in flight, never above `max_pending`,
      and the clamp at zero never acts. */
  lemma {:induction false} PendingIsExact(p: Policy, ws: seq<World>, as_: seq<Action>, n: nat)
    requires Run(p, ws, as_) && n <= |as_|
    ensures ws[n].gate.pending == |Asked(ws[n].calls)| <= p.maxPending
    ensures n < |as_| && as_[n].Resolve? ==> Collections.Max(0, ws[n].gate.pending - 1) == ws[n].gate.pending - 1
  {
    hide Step;
    if n > 0 {
      PendingIsExact(p, ws, as_, n - 1);
      StepCounts(p, ws[n - 1], as_[n - 1]);
      assert ws[n - 1 + 1] == Step(p, ws[n - 1], as_[n - 1]);
    } else {
      assert Asked(ws[0].calls) == {};
    }
    if n < |as_| { StepCounts(p, ws[n], as_[n]); }
  }

  // ---- Fail closed ----

  /** An outcome that may let the tool run. */
  predicate Approves(p: Policy, outcome: Outcome) {
    (outcome.Returned? && outcome.decision.approved) || (outcome.TimedOut? && p.allowOnTimeout)
  }

  /** Step `k` is the decisive answer for call `c`: approving, of an unused id. */
  ghost predicate Granted(p: Policy, ws: seq<World>, as_: seq<Action>, k: nat, c: nat)
    requires |ws| == |as_| + 1
  {
    && k < |as_| && as_[k].Resolve? && as_[k].c == c && c in ws[k].calls && ws[k].calls[c].phase == Waiting
    && Approves(p, as_[k].outcome) && !RequestIds.Live(ws[k].gate.used, ws[k].calls[c].id, as_[k].now)
  }

  /** Step `k` sent call `c` to the handler: the gate was not full, the denials
      of its key were below the limit, and its id was unused. */
  ghost predicate AskedAt(p: Policy, ws: seq<World>, as_: seq<Action>, k: nat, c: nat)
    requires |ws| == |as_| + 1
  {
    && k < |as_| && as_[k].Start? && as_[k].c == c && Enabled(ws[k], as_[k])
    && Admit(p, ws[k].gate, as_[k].id, as_[k].key, as_[k].now) == Asking
  }

  /** A call that may still run, or has run, was granted; a granted call was asked. */
  lemma {:induction false} ApprovedWasGranted(p: Policy, ws: seq<World>, as_: seq<Action>, n: nat, c: nat) returns (k: nat)
    requires Run(p, ws, as_) && n <= |as_| && c in ws[n].calls
    requires ws[n].calls[c].phase.Executed? || (ws[n].calls[c].phase.Decided? && ws[n].calls[c].phase.decision.approved)
    ensures k < n && Granted(p, ws, as_, k, c) && ws[k].calls[c].id == ws[n].calls[c].id
  {
    hide AfterStart, AfterResolve, Admit, RequestIds.Live;
    var w, a := ws[n - 1], as_[n - 1];
    assert ws[n - 1 + 1] == Step(p, w, a) && Enabled(w, a);
    if a.c == c && a.Resolve? {
      k := n - 1;
    } else {
      k := ApprovedWasGranted(p, ws, as_, n - 1, c);
    }
  }

  lemma {:induction false} WaitingWasAsked(p: Policy, ws: seq<World>, as_: seq<Action>, n: nat, c: nat) returns (s: nat)
    requires Run(p, ws, as_) && n <= |as_| && c in ws[n].calls && ws[n].calls[c].phase == Waiting
    ensures s < n && AskedAt(p, ws, as_, s, c) && as_[s].id == ws[n].calls[c].id && as_[s].key == ws[n].calls[c].key
  {
    hide AfterStart, AfterResolve, Admit, Final;
    var w, a := ws[n - 1], as_[n - 1];
    assert ws[n - 1 + 1] == Step(p, w, a) && Enabled(w, a);
    if a.c == c {
      s := n - 1;
    } else {
      s := WaitingWasAsked(p, ws, as_, n - 1, c);
    }
  }

  /** The inner tool runs only after the handler was asked and approved, or timed
      out under `on_timeout="allow"`, for an id not used before: a full gate,
      exhausted retries, a raising handler and a replayed id all deny. */
  lemma RunsOnlyWhenGranted(p: Policy, ws: seq<World>, as_: seq<Action>, n: nat) returns (s: nat, k: nat)
    requires Run(p, ws, as_) && n < |as_| && as_[n].Execute?
    ensures s < k < n && AskedAt(p, ws, as_, s, as_[n].c) && Granted(p, ws, as_, k, as_[n].c)
  {
    hide Admit, Step;
    assert Enabled(ws[n], as_[n]);
    k := ApprovedWasGranted(p, ws, as_, n, as_[n].c);
    s := WaitingWasAsked(p, ws, as_, k, as_[n].c);
  }

  // ---- At most once ----

  lemma {:induction false} FinishedStays(p: Policy, ws: seq<World>, as_: seq<Action>, k: nat, n: nat, c: nat)
    requires Run(p, ws, as_) && k < n <= |as_| && c in ws[k].calls
    requires as_[k].c == c && (as_[k].Execute? || as_[k].Resolve?)
    ensures c in ws[n].calls && ws[n].calls[c].phase != Waiting && ws[n].calls[c].id == ws[k].calls[c].id
    ensures as_[k].Execute? ==> ws[n].calls[c].phase == Executed
    decreases n
  {
    hide AfterStart, AfterResolve, Admit, Final;
    assert ws[n - 1 + 1] == Step(p, ws[n - 1], as_[n - 1]) && Enabled(ws[n - 1], as_[n - 1]);
    if k < n - 1 {
      FinishedStays(p, ws, as_, k, n - 1, c);
    }
  }

  /** One call runs its tool at most once. */
  lemma RunsAtMostOnce(p: Policy, ws: seq<World>, as_: seq<Action>, j: nat, k: nat)
    requires Run(p, ws, as_) && j < |as_| && k < |as_|
    requires as_[j].Execute? && as_[k].Execute? && as_[j].c == as_[k].c
    ensures j == k
  {
    hide Step;
    assert Enabled(ws[j], as_[j]) && Enabled(ws[k], as_[k]);
    if j < k { FinishedStays(p, ws, as_, j, k, as_[j].c); }
    if k < j { FinishedStays(p, ws, as_, k, j, as_[j].c); }
  }

  // ---- One decision per request id, over the whole run ----

  /** What an action does to the used ids, as an operation of the id cache. */
  function UsedOp(w: World, a: Action): RequestIds.Op {
    if a.Resolve? && !a.outcome.Cancelled? && a.c in w.calls then RequestIds.Claim(w.calls[a.c].id, a.now, None)
    else RequestIds.Contains("", a.now)
  }

  function UsedOps(ws: seq<World>, as_: seq<Action>): (ops: seq<RequestIds.Op>)
    requires |ws| == |as_| + 1
    ensures |ops| == |as_| && forall i :: 0 <= i < |as_| ==> ops[i] == UsedOp(ws[i], as_[i])
  {
    seq(|as_|, i requires 0 <= i < |as_| => UsedOp(ws[i], as_[i]))
  }

  function UsedStates(ws: seq<World>): (s: seq<RequestIds.Dict>)
    ensures |s| == |ws| && forall i :: 0 <= i < |ws| ==> s[i] == ws[i].gate.used
  {
    seq(|ws|, i requires 0 <= i < |ws| => ws[i].gate.used)
  }

  lemma {:induction false} ClockRuns(p: Policy, ws: seq<World>, as_: seq<Action>, i: nat, j: nat)
    requires Run(p, ws, as_) && i < j < |as_|
    ensures as_[i].now <= as_[j].now
    decreases j
  {
    assert ws[j - 1 + 1] == Step(p, ws[j - 1], as_[j - 1]) && Enabled(ws[j], as_[j]);
    if i < j - 1 { ClockRuns(p, ws, as_, i, j - 1); }
  }

  lemma UsedRun(p: Policy, ws: seq<World>, as_: seq<Action>)
    requires Run(p, ws, as_)
    ensures RequestIds.Run(RequestIds.Config(p.timeout, USED_SIZE), UsedStates(ws), UsedOps(ws, as_))
  {
    hide Admit, Final, RequestIds.AfterClaim;
    var c := RequestIds.Config(p.timeout, USED_SIZE);
    var states, ops := UsedStates(ws), UsedOps(ws, as_);
    forall i | 0 <= i < |ops|
      ensures states[i + 1] == RequestIds.Apply(c, states[i], ops[i])
    {
      assert ws[i + 1] == Step(p, ws[i], as_[i]) && Enabled(ws[i], as_[i]);
    }
    forall i, j | 0 <= i < j < |ops|
      ensures ops[i].now <= ops[j].now
    {
      ClockRuns(p, ws, as_, i, j);
    }
  }

  /** Two calls with the same request id are granted no closer than the policy's
      timeout, unless 10,000 other ids were decided in between: a request id
      cannot make the tool run twice while it is remembered. */
  lemma OneDecisionPerId(p: Policy, ws: seq<World>, as_: seq<Action>, j: nat, k: nat, c: nat, d: nat)
    requires Run(p, ws, as_) && j < k && Granted(p, ws, as_, j, c) && Granted(p, ws, as_, k, d)
    requires ws[j].calls[c].id == ws[k].calls[d].id
    ensures || as_[k].now >= as_[j].now + p.timeout
            || |RequestIds.Others(UsedStates(ws), UsedOps(ws, as_), ws[j].calls[c].id, j + 1, k)| >= USED_SIZE
  {
    UsedRun(p, ws, as_);
    RequestIds.SingleUse(RequestIds.Config(p.timeout, USED_SIZE), UsedStates(ws), UsedOps(ws, as_), j, k, ws[j].calls[c].id);
  }

  // ---- The retry limit counts reviewer denials and deny-timeouts ----

  /** What an action does to the denial counts. */
  function TrackerOp(p: Policy, w: World, a: Action): Denials.Op {
    match a
    case Start(_, _, key, now) => if CountsDenials(p, w.gate) then Denials.Counted(key, now) else Denials.Pass(now)
    case Resolve(c, outcome, now) => if c in w.calls then DenialOp(p, outcome, w.calls[c].key, now) else Denials.Pass(now)
    case _ => Denials.Pass(a.now)
  }

  function TrackerOps(p: Policy, ws: seq<World>, as_: seq<Action>): (ops: seq<Denials.Op>)
    requires |ws| == |as_| + 1
    ensures |ops| == |as_| && forall i :: 0 <= i < |as_| ==> ops[i] == TrackerOp(p, ws[i], as_[i])
  {
    seq(|as_|, i requires 0 <= i < |as_| => TrackerOp(p, ws[i], as_[i]))
  }

  function TrackerStates(ws: seq<World>): (s: seq<Denials.Dict>)
    ensures |s| == |ws| && forall i :: 0 <= i < |ws| ==> s[i] == ws[i].gate.denials
  {
    seq(|ws|, i requires 0 <= i < |ws| => ws[i].gate.denials)
  }

  lemma TrackerRun(p: Policy, ws: seq<World>, as_: seq<Action>)
    requires Run(p, ws, as_)
    ensures Denials.Run(p.denyWindow, TrackerStates(ws), TrackerOps(p, ws, as_))
  {
    hide Admit, Final, Denials.AfterCount, Denials.AfterRecord, Collections.Remove;
    var states, ops := TrackerStates(ws), TrackerOps(p, ws, as_);
    forall i | 0 <= i < |ops|
      ensures states[i + 1] == Denials.Apply(p.denyWindow, states[i], ops[i])
    {
      assert ws[i + 1] == Step(p, ws[i], as_[i]) && Enabled(ws[i], as_[i]);
    }
    forall i, j | 0 <= i < j < |ops|
      ensures ops[i].now <= ops[j].now
    {
      ClockRuns(p, ws, as_, i, j);
    }
  }

  /** With a retry limit, the handler is asked only while fewer than that many
      denials of the tool lie in the window; only a reviewer's denial or a
      timeout that denies is ever one of them. */
  lemma AskedBelowLimit(p: Policy, ws: seq<World>, as_: seq<Action>, s: nat, c: nat)
    requires Run(p, ws, as_) && AskedAt(p, ws, as_, s, c) && p.maxRetriesAfterDeny.Some?
    ensures |Denials.InWindow(Denials.SinceReset(TrackerStates(ws), TrackerOps(p, ws, as_), as_[s].key, s),
                              p.denyWindow, as_[s].now)| < p.maxRetriesAfterDeny.value
    ensures forall i :: 0 <= i < |as_| && TrackerOps(p, ws, as_)[i].Denied? ==>
              as_[i].Resolve? && ((as_[i].outcome == TimedOut && !p.allowOnTimeout)
                                  || (as_[i].outcome.Returned? && !as_[i].outcome.decision.approved
                                      && as_[i].outcome.decision.decidedBy == Reviewer))
  {
    hide Denials.InWindow, Denials.SinceReset, Denials.Run;
    TrackerRun(p, ws, as_);
    Denials.CountIsWindowed(p.denyWindow, TrackerStates(ws), TrackerOps(p, ws, as_), s);
  }
}
