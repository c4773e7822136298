/** `_GateState.one_at_a_time`: a table of locks that are created on demand,
    counted, and thrown away when their last user leaves, under any
    interleaving and cancellation of tasks. */
module GateLocks {
  import opened Text

  type Key = string
  type Task = nat

  /** One `(lock, users)` pair: an object that tasks keep a reference to even
      after its key has left the table. */
  datatype Cell = Cell(users: int, holder: Option<Task>)

  /** A task between entering and leaving the block for `key`. */
  datatype Visit = Visit(key: Key, cell: nat, inside: bool)

  datatype Locks = Locks(table: map<Key, nat>, cells: map<nat, Cell>, tasks: map<Task, Visit>)

  const IDLE := Locks(map[], map[], map[])

  datatype Action =
    | Enter(t: Task, key: Key, obj: nat)   // `setdefault` and the increment
    | Acquire(t: Task)                       // the lock is granted; the block runs
    | Leave(t: Task)                         // the block ended, failed or was cancelled
    | Cancel(t: Task)                        // cancelled while waiting for the lock

  /** The `finally` clause: decrement the task's own counter, and at zero drop
      whatever the table has under the task's key. */
  function Depart(l: Locks, t: Task, cell: Cell): Locks
    requires t in l.tasks
  {
    var v := l.tasks[t];
    var users := cell.users - 1;
    Locks(if users == 0 then l.table - {v.key} else l.table,
          l.cells[v.cell := cell.(users := users)], l.tasks - {t})
  }

  predicate Enabled(l: Locks, a: Action) {
    match a
    case Enter(t, key, obj) => t !in l.tasks && obj !in l.cells && (key in l.table ==> l.table[key] in l.cells)
    case Acquire(t) => t in l.tasks && !l.tasks[t].inside && l.tasks[t].cell in l.cells && l.cells[l.tasks[t].cell].holder.None?
    case Leave(t) => t in l.tasks && l.tasks[t].inside && l.tasks[t].cell in l.cells
    case Cancel(t) => t in l.tasks && !l.tasks[t].inside && l.tasks[t].cell in l.cells
  }

  function Step(l: Locks, a: Action): Locks
    requires Enabled(l, a)
  {
    match a
    case Enter(t, key, obj) =>
      var c := if key in l.table then l.table[key] else obj;
      var cell := if key in l.table then l.cells[c] else Cell(0, None);
      Locks(l.table[key := c], l.cells[c := cell.(users := cell.users + 1)], l.tasks[t := Visit(key, c, false)])
    case Acquire(t) =>
      var v := l.tasks[t];
      l.(cells := l.cells[v.cell := l.cells[v.cell].(holder := Some(t))], tasks := l.tasks[t := v.(inside := true)])
    case Leave(t) => Depart(l, t, l.cells[l.tasks[t].cell].(holder := None))
    case Cancel(t) => Depart(l, t, l.cells[l.tasks[t].cell])
  }

  // ---- The invariant ----

  ghost function Visitors(l: Locks, key: Key): set<Task> {
    set t | t in l.tasks && l.tasks[t].key == key
  }

  /** The table names the lock every visitor of a key refers to, and counts them. */
  ghost predicate KeyOk(l: Locks, key: Key) {
    if key in l.table then
      && l.table[key] in l.cells
      && l.cells[l.table[key]].users == |Visitors(l, key)| > 0
      && (forall t :: t in Visitors(l, key) ==> l.tasks[t].cell == l.table[key])
    else Visitors(l, key) == {}
  }

  ghost predicate Inv(l: Locks) {
    && (forall key :: KeyOk(l, key))
    && (forall j, k :: j in l.table && k in l.table && l.table[j] == l.table[k] ==> j == k)
    && (forall t :: t in l.tasks && l.tasks[t].inside ==>
          l.tasks[t].cell in l.cells && l.cells[l.tasks[t].cell].holder == Some(t))
    && (forall c :: c in l.cells && l.cells[c].holder.Some? ==>
          var t := l.cells[c].holder.value; t in l.tasks && l.tasks[t].inside && l.tasks[t].cell == c)
  }

  lemma StepKeepsKeys(l: Locks, a: Action, key: Key)
    requires Inv(l) && Enabled(l, a)
    ensures KeyOk(Step(l, a), key)
  {
    var l' := Step(l, a);
    assert KeyOk(l, key);
    match a {
      case Enter(t, k, obj) =>
        assert KeyOk(l, k);
        EnterKeepsKeys(l, t, k, obj, key);
      case Acquire(t) =>
        assert KeyOk(l, l.tasks[t].key);
        assert Visitors(l', key) == Visitors(l, key);
      case Leave(t) =>
        DepartKeepsKeys(l, t, l.cells[l.tasks[t].cell].(holder := None), key);
      case Cancel(t) =>
        DepartKeepsKeys(l, t, l.cells[l.tasks[t].cell], key);
    }
  }

  lemma EnterKeepsKeys(l: Locks, t: Task, k: Key, obj: nat, key: Key)
    requires KeyOk(l, k) && KeyOk(l, key) && Enabled(l, Enter(t, k, obj))
    requires k in l.table && key in l.table && l.table[k] == l.table[key] ==> k == key
    ensures KeyOk(Step(l, Enter(t, k, obj)), key)
  {
    var l' := Step(l, Enter(t, k, obj));
    if k == key {
      assert Visitors(l', key) == Visitors(l, key) + {t};
    } else {
      assert Visitors(l', key) == Visitors(l, key);
    }
  }

  lemma DepartKeepsKeys(l: Locks, t: Task, cell: Cell, key: Key)
    requires Inv(l) && t in l.tasks && l.tasks[t].cell in l.cells && cell.users == l.cells[l.tasks[t].cell].users
    ensures KeyOk(Depart(l, t, cell), key)
  {
    var l' := Depart(l, t, cell);
    var v := l.tasks[t];
    assert KeyOk(l, key) && KeyOk(l, v.key);
    assert t in Visitors(l, v.key);
    assert Visitors(l', key) == if v.key == key then Visitors(l, key) - {t} else Visitors(l, key);
    if v.key == key {
      assert |Visitors(l', key)| == |Visitors(l, key)| - 1;
    }
  }

  lemma StepKeepsInv(l: Locks, a: Action)
    requires Inv(l) && Enabled(l, a)
    ensures Inv(Step(l, a))
  {
    forall key
      ensures KeyOk(Step(l, a), key)
    {
      StepKeepsKeys(l, a, key);
    }
    StepKeepsHolders(l, a);
  }

  lemma StepKeepsHolders(l: Locks, a: Action)
    requires Inv(l) && Enabled(l, a)
    ensures
      var l' := Step(l, a);
      && (forall j, k :: j in l'.table && k in l'.table && l'.table[j] == l'.table[k] ==> j == k)
      && (forall t :: t in l'.tasks && l'.tasks[t].inside ==>
            l'.tasks[t].cell in l'.cells && l'.cells[l'.tasks[t].cell].holder == Some(t))
      && (forall c :: c in l'.cells && l'.cells[c].holder.Some? ==>
            var t := l'.cells[c].holder.value; t in l'.tasks && l'.tasks[t].inside && l'.tasks[t].cell == c)
  {
    forall k | k in l.table
      ensures l.table[k] in l.cells
    {
      assert KeyOk(l, k);
    }
  }

  /** A run of tasks entering, waiting, running and leaving. */
  ghost predicate Run(states: seq<Locks>, actions: seq<Action>) {
    && |states| == |actions| + 1 && states[0] == IDLE
    && forall i :: 0 <= i < |actions| ==> Enabled(states[i], actions[i]) && states[i + 1] == Step(states[i], actions[i])
  }

  lemma {:induction false} RunKeepsInv(states: seq<Locks>, actions: seq<Action>, n: nat)
    requires Run(states, actions) && n <= |actions|
    ensures Inv(states[n])
  {
    if n > 0 {
      RunKeepsInv(states, actions, n - 1);
      StepKeepsInv(states[n - 1], actions[n - 1]);
      assert states[n - 1 + 1] == Step(states[n - 1], actions[n - 1]);
    }
  }

  // ---- Main results ----

  /** At most one task runs the block of a key, at any time of any run, and
      all tasks in a key share one lock. */
  lemma MutualExclusion(states: seq<Locks>, actions: seq<Action>, n: nat, t: Task, u: Task)
    requires Run(states, actions) && n <= |actions|
    requires t in states[n].tasks && u in states[n].tasks && states[n].tasks[t].key == states[n].tasks[u].key
    ensures states[n].tasks[t].cell == states[n].tasks[u].cell
    ensures states[n].tasks[t].inside && states[n].tasks[u].inside ==> t == u
  {
    RunKeepsInv(states, actions, n);
    assert KeyOk(states[n], states[n].tasks[t].key);
    assert t in Visitors(states[n], states[n].tasks[t].key) && u in Visitors(states[n], states[n].tasks[t].key);
  }

  /** A key is in the table exactly while tasks are in it, its counter is their
      number, and the table is empty when nobody is in. */
  lemma TableIsExact(states: seq<Locks>, actions: seq<Action>, n: nat, key: Key)
    requires Run(states, actions) && n <= |actions|
    ensures key in states[n].table <==> exists t :: t in states[n].tasks && states[n].tasks[t].key == key
    ensures key in states[n].table ==>
              states[n].table[key] in states[n].cells
              && states[n].cells[states[n].table[key]].users == |Visitors(states[n], key)|
    ensures states[n].tasks == map[] ==> states[n].table == map[]
  {
    RunKeepsInv(states, actions, n);
    var l := states[n];
    assert KeyOk(l, key);
    assert forall t :: t in Visitors(l, key) <==> t in l.tasks && l.tasks[t].key == key;
    if key in l.table {
      var t :| t in Visitors(l, key);
    }
    if l.tasks == map[] {
      forall k
        ensures k !in l.table
      {
        assert KeyOk(l, k);
        assert Visitors(l, k) == {};
      }
    }
  }

  lemma FreeForAll(l: Locks, t: Task)
    requires Inv(l) && t in l.tasks && !l.tasks[t].inside
    requires forall u :: u in l.tasks && l.tasks[u].key == l.tasks[t].key ==> !l.tasks[u].inside
    ensures Enabled(l, Acquire(t))
  {
    var key := l.tasks[t].key;
    assert KeyOk(l, key);
    assert t in Visitors(l, key);
    var c := l.tasks[t].cell;
    forall u | u in l.tasks && l.tasks[u].cell == c
      ensures l.tasks[u].key == key
    {
      assert KeyOk(l, l.tasks[u].key);
      assert u in Visitors(l, l.tasks[u].key);
    }
  }

  /** No lock is ever lost: when nobody runs the block of a key, every task
      waiting for it may be granted the lock. */
  lemma NoLostLock(states: seq<Locks>, actions: seq<Action>, n: nat, t: Task)
    requires Run(states, actions) && n <= |actions| && t in states[n].tasks && !states[n].tasks[t].inside
    requires forall u :: u in states[n].tasks && states[n].tasks[u].key == states[n].tasks[t].key ==> !states[n].tasks[u].inside
    ensures Enabled(states[n], Acquire(t))
  {
    RunKeepsInv(states, actions, n);
    FreeForAll(states[n], t);
  }
}
