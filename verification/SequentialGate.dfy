/** The approval gate with `sequential=True`: the steps of `_ask` together with those
    of `one_at_a_time`, so that one question at a time is asked per order key. */
module SequentialGate {
  import opened Text
  import opened ApprovalTypes
  import opened ApprovalGate
  import GateLocks

  /** The gate's calls and the lock table; a waiting call is a task of the table. */
  datatype Joint = Joint(world: World, locks: GateLocks.Locks)

  /** `Enter` admits a call and queues it for its order key; `Ask` grants the lock and
      sends the question; `Answer` ends the wait for the handler, which releases the
      lock; `GiveUp` is a cancellation while still queued. */
  datatype Move =
    | Enter(c: nat, id: string, key: string, order: string, lock: nat, now: real)
    | Ask(c: nat)
    | Answer(c: nat, outcome: Outcome, now: real)
    | GiveUp(c: nat, now: real)
    | Execute(c: nat, now: real)
    | End(c: nat, now: real)

  predicate Asks(p: Policy, j: Joint, m: Move)
    requires m.Enter?
  {
    Admit(p, j.world.gate, m.id, m.key, m.now) == Asking
  }

  /** What the move does at the gate, if anything. */
  function AtGate(m: Move): Action
    requires !m.Ask?
  {
    match m
    case Enter(c, id, key, _, _, now) => Start(c, id, key, now)
    case Answer(c, outcome, now) => Resolve(c, outcome, now)
    case GiveUp(c, now) => Resolve(c, Cancelled, now)
    case Execute(c, now) => ApprovalGate.Execute(c, now)
    case End(c, now) => ApprovalGate.End(c, now)
  }

  /** What the move does at the lock table, if anything. */
  function AtLocks(p: Policy, j: Joint, m: Move): Option<GateLocks.Action> {
    match m
    case Enter(c, _, _, order, lock, _) => if Asks(p, j, m) then Some(GateLocks.Enter(c, order, lock)) else None
    case Ask(c) => Some(GateLocks.Acquire(c))
    case Answer(c, _, _) => Some(GateLocks.Leave(c))
    case GiveUp(c, _) => Some(GateLocks.Cancel(c))
    case Execute(_, _) => None
    case End(_, _) => None
  }

  predicate Possible(p: Policy, j: Joint, m: Move) {
    && (!m.Ask? ==> Enabled(j.world, AtGate(m)))
    && (AtLocks(p, j, m).Some? ==> GateLocks.Enabled(j.locks, AtLocks(p, j, m).value))
  }

  function Moved(p: Policy, j: Joint, m: Move): Joint
    requires Possible(p, j, m)
  {
    Joint(if m.Ask? then j.world else Step(p, j.world, AtGate(m)),
          if AtLocks(p, j, m).Some? then GateLocks.Step(j.locks, AtLocks(p, j, m).value) else j.locks)
  }

  ghost predicate JointRun(p: Policy, js: seq<Joint>, moves: seq<Move>) {
    && ValidPolicy(p)
    && |js| == |moves| + 1
    && js[0].world.gate == GateValue(0, [], []) && js[0].world.calls == map[] && js[0].locks == GateLocks.IDLE
    && forall i :: 0 <= i < |moves| ==> Possible(p, js[i], moves[i]) && js[i + 1] == Moved(p, js[i], moves[i])
  }

  // ---- The invariant ----

  /** The calls waiting at the gate are the tasks at the lock table. */
  ghost predicate SameCalls(j: Joint) {
    forall c :: c in j.locks.tasks <==> c in j.world.calls && j.world.calls[c].phase == Waiting
  }

  ghost predicate JointInv(p: Policy, j: Joint) {
    && GateLocks.Inv(j.locks) && SameCalls(j)
    && j.world.gate.pending == |Asked(j.world.calls)| <= p.maxPending
  }

  lemma MoveKeepsCalls(p: Policy, j: Joint, m: Move)
    requires SameCalls(j) && Possible(p, j, m)
    ensures SameCalls(Moved(p, j, m))
  {
    hide Admit, AfterStart, AfterResolve, Final;
  }

  lemma MoveKeepsInv(p: Policy, j: Joint, m: Move)
    requires ValidPolicy(p) && JointInv(p, j) && Possible(p, j, m)
    ensures JointInv(p, Moved(p, j, m))
  {
    hide SameCalls, Step, GateLocks.Step, GateLocks.Inv, Enabled, GateLocks.Enabled, Asked;
    MoveKeepsCalls(p, j, m);
    if !m.Ask? { StepCounts(p, j.world, AtGate(m)); }
    if AtLocks(p, j, m).Some? { GateLocks.StepKeepsInv(j.locks, AtLocks(p, j, m).value); }
  }

  lemma StartsIdle()
    ensures GateLocks.Inv(GateLocks.IDLE) && Asked(map[]) == {}
  {
    forall key
      ensures GateLocks.KeyOk(GateLocks.IDLE, key)
    {
      assert GateLocks.Visitors(GateLocks.IDLE, key) == {};
    }
  }

  lemma {:induction false} RunKeepsJointInv(p: Policy, js: seq<Joint>, moves: seq<Move>, n: nat)
    requires JointRun(p, js, moves) && n <= |moves|
    ensures JointInv(p, js[n])
  {
    hide Moved, Possible, GateLocks.Inv, Asked;
    StartsIdle();
    if n > 0 {
      RunKeepsJointInv(p, js, moves, n - 1);
      MoveKeepsInv(p, js[n - 1], moves[n - 1]);
      assert js[n - 1 + 1] == Moved(p, js[n - 1], moves[n - 1]);
    }
  }

  // ---- Main results ----

  /** A question is out: the call holds its order key's lock and waits for the handler. */
  predicate QuestionOut(j: Joint, c: nat) {
    && c in j.world.calls && j.world.calls[c].phase == Waiting
    && c in j.locks.tasks && j.locks.tasks[c].inside
  }

  /** At any time of any run at most one question is out per order key. */
  lemma OneQuestionPerKey(p: Policy, js: seq<Joint>, moves: seq<Move>, n: nat, c: nat, d: nat)
    requires JointRun(p, js, moves) && n <= |moves|
    requires QuestionOut(js[n], c) && QuestionOut(js[n], d) && js[n].locks.tasks[c].key == js[n].locks.tasks[d].key
    ensures c == d
  {
    hide Moved, Possible, Asked;
    RunKeepsJointInv(p, js, moves, n);
    var l := js[n].locks;
    assert GateLocks.KeyOk(l, l.tasks[c].key);
    assert c in GateLocks.Visitors(l, l.tasks[c].key) && d in GateLocks.Visitors(l, l.tasks[c].key);
  }

  /** Every answer, and so every approval, is to a question that was out, and
      everything counted as pending is queued or out: the lock table has exactly
      `pending` tasks and is empty when nothing is pending. */
  lemma AnswersAreToQuestions(p: Policy, js: seq<Joint>, moves: seq<Move>, n: nat)
    requires JointRun(p, js, moves) && n <= |moves|
    ensures n < |moves| && moves[n].Answer? ==> QuestionOut(js[n], moves[n].c)
    ensures js[n].world.gate.pending == |js[n].locks.tasks.Keys| <= p.maxPending
    ensures js[n].world.gate.pending == 0 ==> js[n].locks.table == map[]
  {
    hide Moved, Step;
    RunKeepsJointInv(p, js, moves, n);
    assert js[n].locks.tasks.Keys == Asked(js[n].world.calls);
    if n < |moves| { assert Possible(p, js[n], moves[n]); }
    if js[n].world.gate.pending == 0 {
      assert js[n].locks.tasks.Keys == {};
      forall key
        ensures key !in js[n].locks.table
      {
        assert GateLocks.KeyOk(js[n].locks, key);
        assert GateLocks.Visitors(js[n].locks, key) == {};
      }
    }
  }

  /** A queued call whose order key has no question out can be asked: nothing is lost. */
  lemma QueuedCanBeAsked(p: Policy, js: seq<Joint>, moves: seq<Move>, n: nat, c: nat)
    requires JointRun(p, js, moves) && n <= |moves| && c in js[n].locks.tasks && !js[n].locks.tasks[c].inside
    requires forall d :: QuestionOut(js[n], d) ==> js[n].locks.tasks[d].key != js[n].locks.tasks[c].key
    ensures Possible(p, js[n], Ask(c))
  {
    hide Moved, Asked;
    RunKeepsJointInv(p, js, moves, n);
    var j := js[n];
    var l := j.locks;
    var key := l.tasks[c].key;
    forall d | d in l.tasks && l.tasks[d].key == key
      ensures !l.tasks[d].inside
    {
      assert d in j.world.calls;
      assert QuestionOut(j, d) <==> l.tasks[d].inside;
    }
    GateLocks.FreeForAll(l, c);
  }
}
