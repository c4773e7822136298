/** `QueueApprovalHandler`: pending requests, the futures their tasks wait on,
    and the ids already decided. */
module QueueHandler {
  import opened Text
  import opened Collections
  import opened ApprovalTypes
  import opened RequestIds

  // The handler's `RequestIdCache()` is built with the defaults.
  const DECIDED_TTL := 86400.0
  const DECIDED_SIZE: nat := 10_000

  datatype Future = Open | Resolved(decision: Decision) | Cancelled

  /** A pending request: the task awaiting it and its future. */
  datatype Pending = Pending(task: nat, future: Future)

  datatype Desk = Desk(pending: map<string, Pending>, timeouts: map<string, real>, decided: RequestIds.Dict)

  const CLEAR := Desk(map[], map[], [])

  datatype Reply = Accepted | Replay | Unknown

  // ---- The three pieces of code that touch the shared state, as functions ----

  predicate Refused(d: Desk, id: string, now: real) {
    id in d.pending || Live(d.decided, id, now)
  }

  /** The first locked block of `request_approval`. */
  function Register(d: Desk, id: string, task: nat, timeout: real, now: real): Desk {
    if Refused(d, id, now) then d
    else d.(pending := d.pending[id := Pending(task, Open)], timeouts := d.timeouts[id := timeout])
  }

  function TimeoutOf(d: Desk, id: string): Option<real> {
    if id in d.timeouts then Some(d.timeouts[id]) else None
  }

  function SubmitReply(d: Desk, id: string, now: real): Reply {
    if id !in d.pending then if Live(d.decided, id, now) then Replay else Unknown
    else if d.pending[id].future.Open? && !Live(d.decided, id, now) then Accepted
    else Replay
  }

  function Submit(d: Desk, id: string, decision: Decision, now: real): Desk {
    if id !in d.pending || !d.pending[id].future.Open? then d
    else
      var claimed := d.(decided := AfterClaim(d.decided, id, now, TtlOr(TimeoutOf(d, id), DECIDED_TTL), DECIDED_SIZE));
      if Live(d.decided, id, now) then claimed
      else claimed.(pending := d.pending[id := d.pending[id].(future := Resolved(decision))])
  }

  /** The `finally` block. */
  function Withdraw(d: Desk, id: string): Desk {
    d.(pending := d.pending - {id}, timeouts := d.timeouts - {id})
  }

  // ---- The object ----

  class QueueApprovalHandler {
    var pending: map<string, Pending>
    var timeouts: map<string, real>
    const decided: RequestIdCache

    ghost predicate Valid()
      reads this, decided
    {
      decided.Valid() && decided.ttl == DECIDED_TTL && decided.maxSize == DECIDED_SIZE
    }

    ghost function State(): Desk
      reads this, decided
    {
      Desk(pending, timeouts, decided.expires)
    }

    constructor ()
      ensures Valid() && State() == CLEAR
    {
      pending, timeouts := map[], map[];
      decided := new RequestIdCache(DECIDED_TTL, DECIDED_SIZE);
    }

    method SubmitDecision(id: string, decision: Decision, now: real) returns (reply: Reply)
      requires Valid()
      modifies this, decided
      ensures Valid()
      ensures reply == SubmitReply(old(State()), id, now)
      ensures State() == Submit(old(State()), id, decision, now)
    {
      if id !in pending {
        var known := decided.Contains(id, now);
        return if known then Replay else Unknown;
      }
      if !pending[id].future.Open? {
        return Replay;
      }
      var ok := decided.Claim(id, now, if id in timeouts then Some(timeouts[id]) else None);
      if !ok {
        return Replay;
      }
      pending := pending[id := pending[id].(future := Resolved(decision))];
      reply := Accepted;
    }

    method RegisterRequest(id: string, task: nat, timeout: real, now: real) returns (ok: bool)
      requires Valid()
      modifies this
      ensures Valid() && decided.expires == old(decided.expires)
      ensures ok <==> !Refused(old(State()), id, now)
      ensures State() == Register(old(State()), id, task, timeout, now)
    {
      var known := decided.Contains(id, now);
      if id in pending || known {
        return false;
      }
      pending := pending[id := Pending(task, Open)];
      timeouts := timeouts[id := timeout];
      ok := true;
    }

    method WithdrawRequest(id: string)
      requires Valid()
      modifies this
      ensures Valid() && State() == Withdraw(old(State()), id)
    {
      pending := pending - {id};
      timeouts := timeouts - {id};
    }
  }

  // ---- Whole runs ----

  /** `Expire` is the timeout of `wait_for`, or a cancellation of the waiting
      task: the future is cancelled.  `Finish` is the waiting task resuming. */
  datatype Action =
    | Request(task: nat, id: string, timeout: real, now: real)
    | Decide(id: string, decision: Decision, now: real)
    | Expire(id: string, now: real)
    | Finish(id: string, now: real)

  /** `known` are the tasks that ever called `request_approval`. */
  datatype World = World(desk: Desk, known: set<nat>, clock: real)

  predicate Enabled(w: World, a: Action) {
    && w.clock <= a.now
    && match a
       case Request(task, id, timeout, now) => task !in w.known
       case Decide(id, decision, now) => true
       case Expire(id, now) => id in w.desk.pending && w.desk.pending[id].future.Open?
       case Finish(id, now) => id in w.desk.pending && !w.desk.pending[id].future.Open?
  }

  function Step(w: World, a: Action): World
    requires Enabled(w, a)
  {
    match a
    case Request(task, id, timeout, now) => World(Register(w.desk, id, task, timeout, now), w.known + {task}, now)
    case Decide(id, decision, now) => World(Submit(w.desk, id, decision, now), w.known, now)
    case Expire(id, now) =>
      World(w.desk.(pending := w.desk.pending[id := w.desk.pending[id].(future := Cancelled)]), w.known, now)
    case Finish(id, now) => World(Withdraw(w.desk, id), w.known, now)
  }

  ghost predicate Run(ws: seq<World>, as_: seq<Action>) {
    && |ws| == |as_| + 1 && ws[0].desk == CLEAR && ws[0].known == {}
    && forall i :: 0 <= i < |as_| ==> Enabled(ws[i], as_[i]) && ws[i + 1] == Step(ws[i], as_[i])
  }

  /** A claim of one id makes no other id live, and time only ends lives. */
  lemma ClaimLive(s: RequestIds.Dict, claimed: string, now: real, ttl: real, size: nat, id: string, later: real)
    requires id != claimed && now <= later && !Live(s, id, now)
    ensures !Live(AfterClaim(s, claimed, now, ttl, size), id, later)
  {
    hide Remove, Stale;
    var after := AfterClaim(s, claimed, now, ttl, size);
    forall i | 0 <= i < |after| && after[i].key == id
      ensures after[i].value <= later
    {
      assert after[i] in s;
      var k :| 0 <= k < |s| && s[k] == after[i];
    }
  }

  /** The desk's own part of the invariant. */
  ghost predicate DeskOk(w: World) {
    && w.desk.pending.Keys == w.desk.timeouts.Keys
    && (forall id :: id in w.desk.pending ==> w.desk.pending[id].task in w.known)
    && (forall i, j :: i in w.desk.pending && j in w.desk.pending && w.desk.pending[i].task == w.desk.pending[j].task ==> i == j)
  }

  /** An open request's id has not been decided. */
  ghost predicate OpenUndecided(w: World) {
    forall id :: id in w.desk.pending && w.desk.pending[id].future.Open? ==> !Live(w.desk.decided, id, w.clock)
  }

  ghost predicate Inv(w: World) { DeskOk(w) && OpenUndecided(w) }

  lemma StepKeepsDesk(w: World, a: Action)
    requires DeskOk(w) && Enabled(w, a)
    ensures DeskOk(Step(w, a))
  {
    hide AfterClaim, Live;
  }

  lemma StepKeepsUndecided(w: World, a: Action)
    requires OpenUndecided(w) && Enabled(w, a)
    ensures OpenUndecided(Step(w, a))
  {
    hide AfterClaim;
    var w' := Step(w, a);
    forall id | id in w'.desk.pending && w'.desk.pending[id].future.Open?
      ensures !Live(w'.desk.decided, id, w'.clock)
    {
      if a.Decide? && a.id != id && !Live(w.desk.decided, id, w.clock) {
        ClaimLive(w.desk.decided, a.id, a.now, TtlOr(TimeoutOf(w.desk, a.id), DECIDED_TTL), DECIDED_SIZE, id, a.now);
      }
    }
  }

  lemma StepKeepsInv(w: World, a: Action)
    requires Inv(w) && Enabled(w, a)
    ensures Inv(Step(w, a))
  {
    hide Step, DeskOk, OpenUndecided;
    StepKeepsDesk(w, a);
    StepKeepsUndecided(w, a);
  }

  lemma {:induction false} RunKeepsInv(ws: seq<World>, as_: seq<Action>, n: nat)
    requires Run(ws, as_) && n <= |as_|
    ensures Inv(ws[n])
  {
    hide Step, Inv;
    if n > 0 {
      RunKeepsInv(ws, as_, n - 1);
      StepKeepsInv(ws[n - 1], as_[n - 1]);
      assert ws[n - 1 + 1] == Step(ws[n - 1], as_[n - 1]);
    } else {
      StartInv(ws[0]);
    }
  }

  lemma StartInv(w: World)
    requires w.desk == CLEAR
    ensures Inv(w)
  {
  }

  /** Step `k` is a submission accepted as the decision of `task`. */
  ghost predicate AcceptedFor(ws: seq<World>, as_: seq<Action>, k: nat, task: nat)
    requires |ws| == |as_| + 1
  {
    && k < |as_| && as_[k].Decide? && as_[k].id in ws[k].desk.pending
    && ws[k].desk.pending[as_[k].id].task == task
    && SubmitReply(ws[k].desk, as_[k].id, as_[k].now) == Accepted
  }

  // ---- Main results ----

  /** `claim` cannot refuse: in every run a submission for a pending request is
      accepted exactly when its future is open, and both dictionaries have the
      same keys. */
  lemma OpenIsAccepted(ws: seq<World>, as_: seq<Action>, n: nat, id: string, now: real)
    requires Run(ws, as_) && n <= |as_| && ws[n].clock <= now
    ensures ws[n].desk.pending.Keys == ws[n].desk.timeouts.Keys
    ensures SubmitReply(ws[n].desk, id, now) == Accepted
       <==> id in ws[n].desk.pending && ws[n].desk.pending[id].future.Open?
  {
    RunKeepsInv(ws, as_, n);
  }

  /** If `task` is pending at all, it is under `id` and has `decision`. */
  ghost predicate Holds(w: World, task: nat, id: string, decision: Decision) {
    && task in w.known
    && forall i :: i in w.desk.pending && w.desk.pending[i].task == task ==>
         i == id && w.desk.pending[i].future == Resolved(decision)
  }

  lemma StepKeepsDecision(w: World, a: Action, task: nat, id: string, decision: Decision)
    requires Enabled(w, a) && Holds(w, task, id, decision)
    ensures Holds(Step(w, a), task, id, decision)
  {
    hide AfterClaim, Live;
  }

  lemma AcceptedHolds(w: World, id: string, decision: Decision, now: real)
    requires DeskOk(w) && Enabled(w, Decide(id, decision, now)) && SubmitReply(w.desk, id, now) == Accepted
    ensures Holds(Step(w, Decide(id, decision, now)), w.desk.pending[id].task, id, decision)
  {
    hide AfterClaim, Live;
  }

  /** An accepted decision stays with its task until the task resumes, and the
      task never waits again. */
  lemma {:induction false} AcceptedStays(ws: seq<World>, as_: seq<Action>, k: nat, n: nat, task: nat)
    requires Run(ws, as_) && AcceptedFor(ws, as_, k, task) && k < n <= |as_|
    ensures Holds(ws[n], task, as_[k].id, as_[k].decision)
    decreases n
  {
    hide Step, Holds, SubmitReply;
    RunKeepsInv(ws, as_, n - 1);
    assert ws[n - 1 + 1] == Step(ws[n - 1], as_[n - 1]);
    if k < n - 1 {
      AcceptedStays(ws, as_, k, n - 1, task);
      StepKeepsDecision(ws[n - 1], as_[n - 1], task, as_[k].id, as_[k].decision);
    } else {
      AcceptedHolds(ws[k], as_[k].id, as_[k].decision, as_[k].now);
    }
  }

  /** At most one decision is ever accepted for one pending request. */
  lemma AtMostOneAccepted(ws: seq<World>, as_: seq<Action>, j: nat, k: nat, task: nat)
    requires Run(ws, as_) && AcceptedFor(ws, as_, j, task) && AcceptedFor(ws, as_, k, task)
    ensures j == k
  {
    if j < k { AcceptedStays(ws, as_, j, k, task); }
    if k < j { AcceptedStays(ws, as_, k, j, task); }
  }

  /** A resolved future holds a decision accepted earlier for that very task. */
  lemma {:induction false} ResolvedWasAccepted(ws: seq<World>, as_: seq<Action>, n: nat, id: string) returns (k: nat)
    requires Run(ws, as_) && n <= |as_|
    requires id in ws[n].desk.pending && ws[n].desk.pending[id].future.Resolved?
    ensures k < n && AcceptedFor(ws, as_, k, ws[n].desk.pending[id].task)
    ensures as_[k].decision == ws[n].desk.pending[id].future.decision && as_[k].id == id
  {
    hide AfterClaim;
    var w, a := ws[n - 1], as_[n - 1];
    assert ws[n - 1 + 1] == Step(w, a);
    if id in w.desk.pending && w.desk.pending[id] == ws[n].desk.pending[id] {
      k := ResolvedWasAccepted(ws, as_, n - 1, id);
    } else {
      k := n - 1;
    }
  }

  /** What `request_approval` returns is the one decision accepted for it, and
      from the acceptance to the return every other submission is a replay. */
  lemma DeliversTheAccepted(ws: seq<World>, as_: seq<Action>, n: nat) returns (k: nat)
    requires Run(ws, as_) && n < |as_| && as_[n].Finish?
    requires ws[n].desk.pending[as_[n].id].future.Resolved?
    ensures
      var p := ws[n].desk.pending[as_[n].id];
      && k < n && AcceptedFor(ws, as_, k, p.task) && as_[k].decision == p.future.decision && as_[k].id == as_[n].id
      && (forall j :: 0 <= j < |as_| && j != k ==> !AcceptedFor(ws, as_, j, p.task))
      && (forall j :: k < j < n && as_[j].Decide? && as_[j].id == as_[n].id ==>
            SubmitReply(ws[j].desk, as_[j].id, as_[j].now) == Replay)
  {
    hide AfterClaim, Live;
    var id := as_[n].id;
    var p := ws[n].desk.pending[id];
    k := ResolvedWasAccepted(ws, as_, n, id);
    forall j | 0 <= j < |as_| && j != k
      ensures !AcceptedFor(ws, as_, j, p.task)
    {
      if AcceptedFor(ws, as_, j, p.task) { AtMostOneAccepted(ws, as_, j, k, p.task); }
    }
    forall j | k < j < n && as_[j].Decide? && as_[j].id == id
      ensures SubmitReply(ws[j].desk, id, as_[j].now) == Replay
    {
      StaysPending(ws, as_, k, j, n, id, p.task);
    }
  }

  /** Between its acceptance and its return a request does not leave the desk. */
  lemma {:induction false} StaysPending(ws: seq<World>, as_: seq<Action>, k: nat, j: nat, n: nat, id: string, task: nat)
    requires Run(ws, as_) && AcceptedFor(ws, as_, k, task) && as_[k].id == id && k < j <= n <= |as_|
    requires id in ws[n].desk.pending && ws[n].desk.pending[id].task == task
    ensures id in ws[j].desk.pending && ws[j].desk.pending[id].task == task && !ws[j].desk.pending[id].future.Open?
    decreases n - j
  {
    hide AfterClaim, Live;
    AcceptedStays(ws, as_, k, j, task);
    if j < n {
      StaysPending(ws, as_, k, j + 1, n, id, task);
      assert ws[j + 1] == Step(ws[j], as_[j]);
    }
  }

  // ---- One decision per id, over the whole run ----

  /** What an action does to the decided ids, as an operation of the id cache. */
  function IdOp(w: World, a: Action): RequestIds.Op {
    if a.Decide? && a.id in w.desk.pending && w.desk.pending[a.id].future.Open?
    then RequestIds.Claim(a.id, a.now, TimeoutOf(w.desk, a.id))
    else RequestIds.Contains("", a.now)
  }

  function IdOps(ws: seq<World>, as_: seq<Action>): (ops: seq<RequestIds.Op>)
    requires |ws| == |as_| + 1
    ensures |ops| == |as_| && forall i :: 0 <= i < |as_| ==> ops[i] == IdOp(ws[i], as_[i])
  {
    seq(|as_|, i requires 0 <= i < |as_| => IdOp(ws[i], as_[i]))
  }

  function IdStates(ws: seq<World>): (s: seq<RequestIds.Dict>)
    ensures |s| == |ws| && forall i :: 0 <= i < |ws| ==> s[i] == ws[i].desk.decided
  {
    seq(|ws|, i requires 0 <= i < |ws| => ws[i].desk.decided)
  }

  lemma {:induction false} ClockRuns(ws: seq<World>, as_: seq<Action>, i: nat, j: nat)
    requires Run(ws, as_) && i < j < |as_|
    ensures as_[i].now <= as_[j].now
    decreases j
  {
    assert ws[j - 1 + 1] == Step(ws[j - 1], as_[j - 1]) && Enabled(ws[j], as_[j]);
    if i < j - 1 { ClockRuns(ws, as_, i, j - 1); }
  }

  lemma StepDecides(w: World, a: Action)
    requires Enabled(w, a)
    ensures Step(w, a).desk.decided == RequestIds.Apply(RequestIds.Config(DECIDED_TTL, DECIDED_SIZE), w.desk.decided, IdOp(w, a))
  {
    hide AfterClaim, Live;
  }

  lemma IdRun(ws: seq<World>, as_: seq<Action>)
    requires Run(ws, as_)
    ensures RequestIds.Run(RequestIds.Config(DECIDED_TTL, DECIDED_SIZE), IdStates(ws), IdOps(ws, as_))
  {
    hide Step, RequestIds.Apply;
    var c := RequestIds.Config(DECIDED_TTL, DECIDED_SIZE);
    var states, ops := IdStates(ws), IdOps(ws, as_);
    forall i | 0 <= i < |ops|
      ensures states[i + 1] == RequestIds.Apply(c, states[i], ops[i])
    {
      StepDecides(ws[i], as_[i]);
    }
    forall i, j | 0 <= i < j < |ops|
      ensures ops[i].now <= ops[j].now
    {
      ClockRuns(ws, as_, i, j);
    }
  }

  /** If `task` is pending at all, it is under `id` with this timeout. */
  ghost predicate TimedAs(w: World, task: nat, id: string, timeout: real) {
    && task in w.known
    && forall i :: i in w.desk.pending && w.desk.pending[i].task == task ==>
         i == id && TimeoutOf(w.desk, i) == Some(timeout)
  }

  lemma StepKeepsTimeout(w: World, a: Action, task: nat, id: string, timeout: real)
    requires Enabled(w, a) && TimedAs(w, task, id, timeout)
    ensures TimedAs(Step(w, a), task, id, timeout)
  {
    hide AfterClaim, Live;
  }

  lemma AskedTimes(w: World, task: nat, id: string, timeout: real, now: real)
    requires DeskOk(w) && Enabled(w, Request(task, id, timeout, now))
    ensures TimedAs(Step(w, Request(task, id, timeout, now)), task, id, timeout)
  {
    hide Live;
  }

  lemma {:induction false} AskedStays(ws: seq<World>, as_: seq<Action>, s: nat, n: nat)
    requires Run(ws, as_) && s < n <= |as_| && as_[s].Request?
    ensures TimedAs(ws[n], as_[s].task, as_[s].id, as_[s].timeout)
    decreases n
  {
    hide Step, TimedAs;
    assert ws[n - 1 + 1] == Step(ws[n - 1], as_[n - 1]) && Enabled(ws[n - 1], as_[n - 1]);
    if s == n - 1 {
      RunKeepsInv(ws, as_, s);
      AskedTimes(ws[s], as_[s].task, as_[s].id, as_[s].timeout, as_[s].now);
    } else {
      AskedStays(ws, as_, s, n - 1);
      StepKeepsTimeout(ws[n - 1], as_[n - 1], as_[s].task, as_[s].id, as_[s].timeout);
    }
  }

  /** The timeout kept for a pending request is the one its task asked with. */
  lemma TimeoutAsAsked(ws: seq<World>, as_: seq<Action>, s: nat, n: nat, id: string)
    requires Run(ws, as_) && n <= |as_| && s < |as_| && as_[s].Request?
    requires id in ws[n].desk.pending && ws[n].desk.pending[id].task == as_[s].task
    ensures as_[s].id == id && s < n && TimeoutOf(ws[n].desk, id) == Some(as_[s].timeout)
  {
    hide Step;
    RunKeepsInv(ws, as_, n);
    assert Enabled(ws[s], as_[s]);
    if n <= s { KnownGrows(ws, as_, n, s); }
    if s < n { AskedStays(ws, as_, s, n); }
  }

  lemma {:induction false} KnownGrows(ws: seq<World>, as_: seq<Action>, i: nat, j: nat)
    requires Run(ws, as_) && i <= j <= |as_|
    ensures ws[i].known <= ws[j].known
    decreases j
  {
    hide Register, Submit, Withdraw;
    if i < j {
      KnownGrows(ws, as_, i, j - 1);
      assert ws[j - 1 + 1] == Step(ws[j - 1], as_[j - 1]);
    }
  }

  /** A decided id is remembered for the timeout its request was asked with (a day if
      that is not positive), or until ten thousand other ids were decided: meanwhile
      another decision for it is a replay or an acceptance for nobody, never unknown,
      and no new request may use it. */
  lemma DecidedIsRemembered(ws: seq<World>, as_: seq<Action>, s: nat, j: nat, n: nat, now: real)
    requires Run(ws, as_) && s < |as_| && as_[s].Request? && AcceptedFor(ws, as_, j, as_[s].task)
    requires j < n <= |as_| && ws[n].clock <= now
    ensures
      var id := as_[j].id;
      var lifetime := if as_[s].timeout > 0.0 then as_[s].timeout else 86400.0;
      || now >= as_[j].now + lifetime
      || |RequestIds.Others(IdStates(ws), IdOps(ws, as_), id, j + 1, n)| >= 10_000
      || (Refused(ws[n].desk, id, now) && SubmitReply(ws[n].desk, id, now) == Replay)
  {
    hide Live, Step, AfterClaim;
    var id := as_[j].id;
    TimeoutAsAsked(ws, as_, s, j, id);
    IdRun(ws, as_);
    ClockIsLast(ws, as_, n);
    RequestIds.Remembered(RequestIds.Config(DECIDED_TTL, DECIDED_SIZE), IdStates(ws), IdOps(ws, as_), j, n, id, now);
  }

  lemma ClockIsLast(ws: seq<World>, as_: seq<Action>, n: nat)
    requires Run(ws, as_) && 0 < n <= |as_|
    ensures ws[n].clock == as_[n - 1].now
  {
    hide Register, Submit, Withdraw;
    assert ws[n - 1 + 1] == Step(ws[n - 1], as_[n - 1]);
  }

  /** An id takes one decision: two accepted ones are the timeout of the first one's
      request apart (a day if that is not positive), or ten thousand other ids were
      decided between them. */
  lemma OneDecisionPerId(ws: seq<World>, as_: seq<Action>, s: nat, j: nat, k: nat, t: nat)
    requires Run(ws, as_) && s < |as_| && as_[s].Request? && AcceptedFor(ws, as_, j, as_[s].task)
    requires j < k && AcceptedFor(ws, as_, k, t) && as_[j].id == as_[k].id
    ensures
      var lifetime := if as_[s].timeout > 0.0 then as_[s].timeout else 86400.0;
      || as_[k].now >= as_[j].now + lifetime
      || |RequestIds.Others(IdStates(ws), IdOps(ws, as_), as_[j].id, j + 1, k)| >= 10_000
  {
    hide Live, Step, AfterClaim;
    assert Enabled(ws[k], as_[k]);
    DecidedIsRemembered(ws, as_, s, j, k, as_[k].now);
  }

  // ---- What each step leaves on the desk ----

  /** A request is refused exactly when its id is pending or remembered as decided;
      otherwise it is pending with an open future and its own timeout. */
  lemma RequestIsPending(w: World, task: nat, id: string, timeout: real, now: real)
    requires Enabled(w, Request(task, id, timeout, now))
    ensures
      var desk := Step(w, Request(task, id, timeout, now)).desk;
      if id in w.desk.pending || Live(w.desk.decided, id, now) then desk == w.desk
      else
        && desk.pending == w.desk.pending[id := Pending(task, Open)]
        && desk.timeouts == w.desk.timeouts[id := timeout] && desk.decided == w.desk.decided
  {
    hide Live;
  }

  /** A task that resumes takes its id off the desk, and nothing else. */
  lemma FinishLeaves(w: World, id: string, now: real)
    requires Enabled(w, Finish(id, now))
    ensures
      var desk := Step(w, Finish(id, now)).desk;
      && id !in desk.pending && id !in desk.timeouts && desk.decided == w.desk.decided
      && (forall i :: i != id ==> (i in desk.pending <==> i in w.desk.pending) && (i in desk.timeouts <==> i in w.desk.timeouts))
      && (forall i :: i in desk.pending ==> desk.pending[i] == w.desk.pending[i])
  {
  }

  /** A decision for an id that is not pending is a replay only if one was accepted
      for that id before; otherwise the id is unknown. */
  lemma ReplayWasAccepted(ws: seq<World>, as_: seq<Action>, n: nat, id: string, now: real) returns (j: nat)
    requires Run(ws, as_) && n <= |as_| && id !in ws[n].desk.pending
    requires SubmitReply(ws[n].desk, id, now) != Unknown
    ensures SubmitReply(ws[n].desk, id, now) == Replay
    ensures j < n && as_[j].Decide? && as_[j].id == id && SubmitReply(ws[j].desk, id, as_[j].now) == Accepted
  {
    hide Step, Live, AfterClaim;
    IdRun(ws, as_);
    var states, ops := IdStates(ws), IdOps(ws, as_);
    RequestIds.LiveWasClaimed(RequestIds.Config(DECIDED_TTL, DECIDED_SIZE), states, ops, n, id, now);
    j :| 0 <= j < n && RequestIds.Succeeds(states, ops, j, id)
      && now < ops[j].now + if ops[j].ttl.Some? && ops[j].ttl.value > 0.0 then ops[j].ttl.value else DECIDED_TTL;
    assert ops[j] == IdOp(ws[j], as_[j]);
  }
}
