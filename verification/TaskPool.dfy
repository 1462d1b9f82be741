/**
 The pool of tasks an executor works on. Adding a task counts the pool and inserts into it
 in two separate lock sections, and the monitor's loops and the server's requests add
 concurrently.
 */
module TaskPool {
  import opened Wrappers

  type TaskId = nat   // a uuid

  datatype Kind = Learn | Predict | Other

  datatype Task = Task(id: TaskId, kind: Kind)

  datatype Entry = Entry(kind: Kind, expires: int)

  type Pool = map<TaskId, Entry>

  datatype AddError = TooManyTasks | TaskExists

  function OfKind(pool: Pool, kind: Kind): set<TaskId> { set id | id in pool && pool[id].kind == kind }

  function NotLearn(pool: Pool): set<TaskId> { set id | id in pool && pool[id].kind != Learn }

  datatype Limits = Limits(train: nat, predict: nat) {
    function Of(kind: Kind): nat { if kind.Learn? then train else predict }

    /** The guard of adding: everything but training counts as prediction, and only training
        and prediction are ever refused. */
    ghost predicate Admits(pool: Pool, kind: Kind) {
      match kind
      case Learn => |OfKind(pool, Learn)| < train
      case Predict => |NotLearn(pool)| < predict
      case Other => true
    }
  }

  function Inserted(pool: Pool, t: Task, expires: int): Pool {
    if t.id in pool then pool else pool[t.id := Entry(t.kind, expires)]
  }

  class MpcModelHandler {
    const limits: Limits
    const maxExecTime: nat
    var mpcTasks: Pool

    constructor (limits: Limits, maxExecTime: nat)
      ensures this.limits == limits && this.maxExecTime == maxExecTime && mpcTasks == map[]
    {
      this.limits, this.maxExecTime, mpcTasks := limits, maxExecTime, map[];
    }

    method GetAvailableTasksNum() returns (tNum: nat, pNum: nat)
      ensures tNum == 0 <==> !limits.Admits(mpcTasks, Learn)
      ensures pNum == 0 <==> !limits.Admits(mpcTasks, Predict)
      ensures tNum > 0 ==> tNum + |OfKind(mpcTasks, Learn)| == limits.train
      ensures pNum > 0 ==> pNum + |NotLearn(mpcTasks)| == limits.predict
    {
      var train, predict := 0, 0;
      var todo := mpcTasks.Keys;
      ghost var seen: Pool := map[];
      while todo != {}
        invariant todo + seen.Keys == mpcTasks.Keys && todo !! seen.Keys
        invariant forall id :: id in seen ==> seen[id] == mpcTasks[id]
        invariant train == |OfKind(seen, Learn)| && predict == |NotLearn(seen)|
        decreases todo
      {
        var id :| id in todo;
        KindsGrow(seen, id, mpcTasks[id], Learn);
        NotLearnGrows(seen, id, mpcTasks[id]);
        if mpcTasks[id].kind.Learn? { train := train + 1; } else { predict := predict + 1; }
        seen := seen[id := mpcTasks[id]];
        todo := todo - {id};
      }
      assert seen == mpcTasks;
      tNum := if train >= limits.train then 0 else limits.train - train;
      pNum := if predict >= limits.predict then 0 else limits.predict - predict;
    }

    /** Alone, it refuses exactly the full pool and the known task. */
    method AddTaskIntoMpcHandler(t: Task, now: int) returns (err: Option<AddError>)
      modifies this
      ensures err == Some(TooManyTasks) <==>
                || (t.kind == Learn && |OfKind(old(mpcTasks), Learn)| >= limits.train)
                || (t.kind == Predict && |NotLearn(old(mpcTasks))| >= limits.predict)
      ensures err == Some(TaskExists) <==> err != Some(TooManyTasks) && t.id in old(mpcTasks)
      ensures err.Some? ==> mpcTasks == old(mpcTasks)
      ensures err.None? ==> mpcTasks == old(mpcTasks)[t.id := Entry(t.kind, now + maxExecTime)]
      ensures err.None? <==> limits.Admits(old(mpcTasks), t.kind) && t.id !in old(mpcTasks)
      ensures err.None? ==> mpcTasks == Inserted(old(mpcTasks), t, now + maxExecTime)
    {
      var tNum, pNum := GetAvailableTasksNum();
      if t.kind.Learn? && tNum == 0 { return Some(TooManyTasks); }
      if t.kind.Predict? && pNum == 0 { return Some(TooManyTasks); }
      if t.id in mpcTasks { return Some(TaskExists); }
      mpcTasks := mpcTasks[t.id := Entry(t.kind, now + maxExecTime)];
      return None;
    }

    method StopLocalMpcTask(id: TaskId) returns (notified: bool)
      modifies this
      ensures notified <==> id in old(mpcTasks)
      ensures mpcTasks == old(mpcTasks) - {id}
    {
      if id !in mpcTasks { return false; }
      mpcTasks := mpcTasks - {id};
      return true;
    }

    /** Stops exactly the tasks whose time is up. */
    method CheckMpcTimeOutTasks(now: int)
      modifies this
      ensures forall id :: id in mpcTasks <==> id in old(mpcTasks) && old(mpcTasks)[id].expires > now
      ensures forall id :: id in mpcTasks ==> mpcTasks[id] == old(mpcTasks)[id]
    {
      var timeOut := set id | id in mpcTasks && mpcTasks[id].expires <= now;
      ghost var all := timeOut;
      while timeOut != {}
        invariant timeOut <= all
        invariant mpcTasks == old(mpcTasks) - (all - timeOut)
        decreases timeOut
      {
        var id :| id in timeOut;
        var _ := StopLocalMpcTask(id);
        timeOut := timeOut - {id};
      }
    }
  }

  /** A task added at `now` is there until the first scan at or after `now + maxExecTime`. */
  method AddedThenScanned(h: MpcModelHandler, t: Task, now: int, scan: int) returns (err: Option<AddError>, there: bool)
    modifies h
    ensures err.None? ==> (there <==> scan < now + h.maxExecTime)
  {
    err := h.AddTaskIntoMpcHandler(t, now);
    h.CheckMpcTimeOutTasks(scan);
    there := t.id in h.mpcTasks;
  }

  lemma KindsGrow(pool: Pool, id: TaskId, e: Entry, k: Kind)
    requires id !in pool
    ensures |OfKind(pool[id := e], k)| == |OfKind(pool, k)| + if e.kind == k then 1 else 0
  {
    if e.kind == k {
      assert OfKind(pool[id := e], k) == OfKind(pool, k) + {id};
    } else {
      assert OfKind(pool[id := e], k) == OfKind(pool, k);
    }
  }

  lemma NotLearnGrows(pool: Pool, id: TaskId, e: Entry)
    requires id !in pool
    ensures |NotLearn(pool[id := e])| == |NotLearn(pool)| + if e.kind != Learn then 1 else 0
  {
    if e.kind != Learn {
      assert NotLearn(pool[id := e]) == NotLearn(pool) + {id};
    } else {
      assert NotLearn(pool[id := e]) == NotLearn(pool);
    }
  }

  lemma KindsShrink(pool: Pool, id: TaskId, k: Kind)
    ensures |OfKind(pool - {id}, k)| <= |OfKind(pool, k)|
  {
    var a, b := OfKind(pool - {id}, k), OfKind(pool, k);
    assert b == a + (b - a);
  }

  // ---------------------------------------------------------------- concurrent callers

  /** `passed`: callers that found room and have not inserted yet. `stopping`: tasks found in
      the pool that are about to be deleted. */
  datatype State = State(pool: Pool, passed: map<nat, Task>, stopping: map<nat, TaskId>)

  datatype Config = Config(limits: Limits, callers: nat)

  datatype Action =
    | Pass(w: nat, task: Task)
    | Insert(w: nat, expires: int)
    | BeginStop(k: nat, id: TaskId)
    | Delete(k: nat)

  ghost predicate Enabled(c: Config, s: State, a: Action) {
    match a
    case Pass(w, task) => w < c.callers && w !in s.passed && c.limits.Admits(s.pool, task.kind)
    case Insert(w, _) => w in s.passed
    case BeginStop(k, id) => k !in s.stopping && id in s.pool
    case Delete(k) => k in s.stopping
  }

  ghost function Next(c: Config, s: State, a: Action): State
    requires Enabled(c, s, a)
  {
    match a
    case Pass(w, task) => s.(passed := s.passed[w := task])
    case Insert(w, expires) =>
      s.(pool := Inserted(s.pool, s.passed[w], expires), passed := s.passed - {w})
    case BeginStop(k, id) => s.(stopping := s.stopping[k := id])
    case Delete(k) => s.(pool := s.pool - {s.stopping[k]}, stopping := s.stopping - {k})
  }

  ghost function InFlight(passed: map<nat, Task>, kind: Kind): set<nat> {
    set w | w in passed && passed[w].kind == kind
  }

  ghost predicate Bounded(c: Config, s: State, kind: Kind) {
    |OfKind(s.pool, kind)| + |InFlight(s.passed, kind)| < c.limits.Of(kind) + c.callers
  }

  ghost predicate Inv(c: Config, s: State) {
    && (forall w :: w in s.passed ==> w < c.callers)
    && Bounded(c, s, Learn) && Bounded(c, s, Predict)
  }

  lemma {:induction false} Below(n: nat, a: set<nat>)
    requires forall w :: w in a ==> w < n
    ensures |a| <= n
  {
    if n > 0 {
      Below(n - 1, a - {n - 1});
      assert a <= (a - {n - 1}) + {n - 1};
      assert |a| <= |a - {n - 1}| + 1 by {
        if n - 1 in a { assert a == (a - {n - 1}) + {n - 1}; } else { assert a == a - {n - 1}; }
      }
    }
  }

  lemma NotLearnCovers(pool: Pool)
    ensures |OfKind(pool, Predict)| <= |NotLearn(pool)|
  {
    var a, b := OfKind(pool, Predict), NotLearn(pool);
    assert b == a + (b - a);
  }

  lemma PassBounded(c: Config, s: State, a: Action, kind: Kind)
    requires Inv(c, s) && Enabled(c, s, a) && a.Pass? && Bounded(c, s, kind) && !kind.Other?
    ensures Bounded(c, Next(c, s, a), kind)
  {
    var t := Next(c, s, a);
    if a.task.kind == kind {
      NotLearnCovers(s.pool);
      Below(c.callers, InFlight(t.passed, kind));
    } else {
      assert InFlight(t.passed, kind) == InFlight(s.passed, kind);
    }
  }

  lemma LeavesFlight(passed: map<nat, Task>, w: nat, kind: Kind)
    requires w in passed
    ensures |InFlight(passed, kind)| == |InFlight(passed - {w}, kind)| + if passed[w].kind == kind then 1 else 0
  {
    if passed[w].kind == kind {
      assert InFlight(passed, kind) == InFlight(passed - {w}, kind) + {w};
    } else {
      assert InFlight(passed, kind) == InFlight(passed - {w}, kind);
    }
  }

  lemma InsertBounded(c: Config, s: State, a: Action, kind: Kind)
    requires Enabled(c, s, a) && a.Insert? && Bounded(c, s, kind)
    ensures Bounded(c, Next(c, s, a), kind)
  {
    var task := s.passed[a.w];
    if task.id !in s.pool { KindsGrow(s.pool, task.id, Entry(task.kind, a.expires), kind); }
    LeavesFlight(s.passed, a.w, kind);
  }

  lemma StepInv(c: Config, s: State, a: Action)
    requires Inv(c, s) && Enabled(c, s, a)
    ensures Inv(c, Next(c, s, a))
  {
    var t := Next(c, s, a);
    match a
    case Pass(_, _) =>
      PassBounded(c, s, a, Learn);
      PassBounded(c, s, a, Predict);
    case Insert(_, _) =>
      InsertBounded(c, s, a, Learn);
      InsertBounded(c, s, a, Predict);
    case BeginStop(_, _) =>
      assert InFlight(t.passed, Learn) == InFlight(s.passed, Learn);
      assert InFlight(t.passed, Predict) == InFlight(s.passed, Predict);
    case Delete(k) =>
      assert InFlight(t.passed, Learn) == InFlight(s.passed, Learn);
      assert InFlight(t.passed, Predict) == InFlight(s.passed, Predict);
      KindsShrink(s.pool, s.stopping[k], Learn);
      KindsShrink(s.pool, s.stopping[k], Predict);
  }

  ghost predicate Run(c: Config, states: seq<State>, actions: seq<Action>) {
    && |states| == |actions| + 1
    && states[0] == State(map[], map[], map[])
    && forall i :: 0 <= i < |actions| ==>
         Enabled(c, states[i], actions[i]) && states[i + 1] == Next(c, states[i], actions[i])
  }

  lemma {:induction false} RunInv(c: Config, states: seq<State>, actions: seq<Action>, n: nat)
    requires Run(c, states, actions) && n < |states| && c.callers >= 1
    ensures Inv(c, states[n])
  {
    if n > 0 {
      RunInv(c, states, actions, n - 1);
      StepInv(c, states[n - 1], actions[n - 1]);
    }
  }

  /** With at most C concurrent callers the pool exceeds its limit by at most C - 1,
      inserts in flight included; so one caller alone keeps the limit. */
  lemma PoolBounded(c: Config, states: seq<State>, actions: seq<Action>, n: nat)
    requires Run(c, states, actions) && n < |states| && c.callers >= 1
    ensures |OfKind(states[n].pool, Learn)| + |InFlight(states[n].passed, Learn)| <= c.limits.train + c.callers - 1
    ensures |OfKind(states[n].pool, Predict)| + |InFlight(states[n].passed, Predict)|
            <= c.limits.predict + c.callers - 1
  {
    RunInv(c, states, actions, n);
  }

  /** A task that is stopped leaves the pool, and can be added again. */
  lemma LeavesAndReturns(c: Config, t: Task) returns (states: seq<State>, actions: seq<Action>)
    requires c.callers > 0 && c.limits.Of(t.kind) > 0
    ensures actions == [Pass(0, t), Insert(0, 1), BeginStop(0, t.id), Delete(0), Pass(0, t), Insert(0, 2)]
    ensures Run(c, states, actions)
    ensures states[2].pool == map[t.id := Entry(t.kind, 1)] && states[4].pool == map[]
    ensures states[6] == State(map[t.id := Entry(t.kind, 2)], map[], map[])
  {
    actions := [Pass(0, t), Insert(0, 1), BeginStop(0, t.id), Delete(0), Pass(0, t), Insert(0, 2)];
    var s0 := State(map[], map[], map[]);
    assert OfKind(s0.pool, Learn) == {} && NotLearn(s0.pool) == {};
    var s1 := Next(c, s0, actions[0]);
    var s2 := Next(c, s1, actions[1]);
    var s3 := Next(c, s2, actions[2]);
    var s4 := Next(c, s3, actions[3]);
    assert s4.pool == map[] && OfKind(s4.pool, Learn) == {} && NotLearn(s4.pool) == {};
    var s5 := Next(c, s4, actions[4]);
    var s6 := Next(c, s5, actions[5]);
    assert s6.stopping == map[] && s6.passed == map[];
    states := [s0, s1, s2, s3, s4, s5, s6];
  }

  /** Successful adds of a task so far, and deletions of it from the pool. */
  ghost function Adds(states: seq<State>, actions: seq<Action>, n: nat, id: TaskId): nat
    requires n <= |actions| && |states| == |actions| + 1
  {
    if n == 0 then 0
    else Adds(states, actions, n - 1, id) + if id !in states[n - 1].pool && id in states[n].pool then 1 else 0
  }

  ghost function Removals(states: seq<State>, actions: seq<Action>, n: nat, id: TaskId): nat
    requires n <= |actions| && |states| == |actions| + 1
  {
    if n == 0 then 0
    else
      var a := actions[n - 1];
      Removals(states, actions, n - 1, id)
      + if a.Delete? && a.k in states[n - 1].stopping && states[n - 1].stopping[a.k] == id && id in states[n - 1].pool
        then 1 else 0
  }

  /** A task is held once: between two adds of it that succeed it was deleted, and as long as it is
      held its entry does not change. */
  lemma {:induction false} HeldOnce(c: Config, states: seq<State>, actions: seq<Action>, n: nat, id: TaskId)
    requires Run(c, states, actions) && n <= |actions|
    ensures Adds(states, actions, n, id)
            == Removals(states, actions, n, id) + if id in states[n].pool then 1 else 0
    ensures n > 0 && id in states[n - 1].pool && id in states[n].pool ==> states[n].pool[id] == states[n - 1].pool[id]
  {
    if n > 0 {
      HeldOnce(c, states, actions, n - 1, id);
      assert Enabled(c, states[n - 1], actions[n - 1]);
    }
  }

  // ---------------------------------------------------------------- the bound is reached

  lemma Extend(c: Config, states: seq<State>, actions: seq<Action>, a: Action)
    returns (states': seq<State>, actions': seq<Action>)
    requires Run(c, states, actions) && Enabled(c, states[|actions|], a)
    ensures Run(c, states', actions') && states'[|actions'|] == Next(c, states[|actions|], a)
  {
    states', actions' := states + [Next(c, states[|actions|], a)], actions + [a];
  }

  ghost function Full(n: nat): (p: Pool)
    ensures forall id: nat :: id in p <==> id < n
  {
    if n == 0 then map[] else Full(n - 1)[n - 1 := Entry(Learn, 0)]
  }

  /** The first `n` of `callers` hold the tasks from `base + callers - 1` downwards. */
  ghost function AllPassed(base: nat, callers: nat, n: nat): (m: map<nat, Task>)
    requires n <= callers
    ensures forall w: nat :: w in m <==> w < n
  {
    if n == 0 then map[] else AllPassed(base, callers, n - 1)[n - 1 := Task(base + callers - n, Learn)]
  }

  lemma {:induction false} FullHas(n: nat)
    ensures |OfKind(Full(n), Learn)| == n
  {
    if n == 0 {
      assert OfKind(Full(0), Learn) == {};
    } else {
      FullHas(n - 1);
      KindsGrow(Full(n - 1), n - 1, Entry(Learn, 0), Learn);
    }
  }

  lemma {:induction false} FillUp(c: Config, n: nat) returns (states: seq<State>, actions: seq<Action>)
    requires n <= c.limits.train && c.callers >= 1
    ensures Run(c, states, actions) && states[|actions|] == State(Full(n), map[], map[])
  {
    if n == 0 {
      states, actions := [State(map[], map[], map[])], [];
    } else {
      states, actions := FillUp(c, n - 1);
      FullHas(n - 1);
      states, actions := Extend(c, states, actions, Pass(0, Task(n - 1, Learn)));
      states, actions := Extend(c, states, actions, Insert(0, 0));
      assert map[][0 := Task(n - 1, Learn)] - {0} == map[];
    }
  }

  lemma {:induction false} AllPass(c: Config, base: nat, n: nat) returns (states: seq<State>, actions: seq<Action>)
    requires base < c.limits.train && n <= c.callers && c.callers >= 1
    ensures Run(c, states, actions) && states[|actions|] == State(Full(base), AllPassed(base, c.callers, n), map[])
  {
    if n == 0 {
      states, actions := FillUp(c, base);
    } else {
      states, actions := AllPass(c, base, n - 1);
      FullHas(base);
      states, actions := Extend(c, states, actions, Pass(n - 1, Task(base + c.callers - n, Learn)));
    }
  }

  lemma {:induction false} AllInsert(c: Config, base: nat, n: nat) returns (states: seq<State>, actions: seq<Action>)
    requires base < c.limits.train && n <= c.callers && c.callers >= 1
    ensures Run(c, states, actions)
    ensures states[|actions|] == State(Full(base + c.callers - n), AllPassed(base, c.callers, n), map[])
    decreases c.callers - n
  {
    if n == c.callers {
      states, actions := AllPass(c, base, n);
    } else {
      states, actions := AllInsert(c, base, n + 1);
      states, actions := Extend(c, states, actions, Insert(n, 0));
      assert AllPassed(base, c.callers, n + 1) - {n} == AllPassed(base, c.callers, n);
    }
  }

  /** For every limit and number of callers some run ends with limit + C - 1 tasks in the pool. */
  lemma BoundReached(c: Config) returns (states: seq<State>, actions: seq<Action>)
    requires c.limits.train >= 1 && c.callers >= 1
    ensures Run(c, states, actions)
    ensures |OfKind(states[|actions|].pool, Learn)| == c.limits.train + c.callers - 1
  {
    states, actions := AllInsert(c, c.limits.train - 1, 0);
    FullHas(c.limits.train - 1 + c.callers);
  }
}
