/**
 The event loop of a computing node: callers hand their requests to one goroutine, which
 answers on a channel of capacity one, at once or through a worker it starts.

 A call checks that the loop runs, then offers its request until the loop takes it or is
 done, then waits for the answer. Every interleaving of calls, loop, workers and stoppers
 is a run of `Next`.
 */
module EventLoop {
  import opened Wrappers
  import opened TaskIds
  import opened Trainers

  datatype Request =
    | StartTrain(start: StartRequest)
    | StopTrain(id: TaskId)
    | Train(id: TaskId)
    | Validate(id: TaskId, live: bool)
    | StartPredict(id: TaskId, builds: bool)
    | StopPredict(id: TaskId)
    | Predict(id: TaskId)

  datatype Reply = Done(err: Option<StartError>) | NotFound | Advanced(payload: nat)

  datatype Phase = Entered | Offering | Waiting | Answered(reply: Reply) | Refused

  /** `buf` is the answer channel, `sent` counts what was ever sent to it. */
  datatype Call = Call(req: Request, phase: Phase, buf: seq<Reply>, sent: nat)

  datatype Loop = Idle | Handling(c: nat) | Replying(c: nat, reply: Reply) | Closing | Stopped

  datatype Stop = Asking | Acknowledged | Back

  datatype State = State(
    calls: map<nat, Call>,
    loop: Loop,
    workers: set<nat>,
    tasks: Tasks,
    models: set<TaskId>,
    stops: map<nat, Stop>,
    accepted: seq<nat>)

  datatype Config = Config(trainTasks: nat, predictTasks: nat) {
    function LearnerLimit(): nat { trainTasks * 21 + 600 }
    function ModelLimit(): nat { predictTasks + trainTasks * 21 + 600 }
  }

  datatype Action =
    | Enter(c: nat, req: Request)
    | Check(c: nat)
    | Accept(c: nat)
    | GiveUp(c: nat)
    | Handle
    | Send
    | Work(c: nat, reply: Reply)
    | Receive(c: nat)
    | AskStop(k: nat)
    | TakeStop(k: nat)
    | Close
    | StopReturns(k: nat)

  ghost predicate Init(s: State) {
    s == State(map[], Idle, {}, Tasks({}, {}, {}, {}), {}, map[], [])
  }

  predicate Stoppable(r: Request) { r.StopTrain? ==> Parseable(r.id) }

  function TasksAfter(v: Tasks, limit: nat, r: Request): Tasks
    requires Stoppable(r)
  {
    match r
    case StartTrain(start) => Started(v, limit, start)
    case StopTrain(id) => Deleted(v, id)
    case _ => v
  }

  function ModelsAfter(models: set<TaskId>, limit: nat, r: Request): set<TaskId> {
    match r
    case StartPredict(id, builds) => With(models, Refusal(models, limit, id, builds).None?, id)
    case StopPredict(id) => models - {id}
    case _ => models
  }

  /** The loop's own answer; without one a worker answers. */
  function Answer(c: Config, v: Tasks, models: set<TaskId>, r: Request): Option<Reply> {
    match r
    case StartTrain(start) => Some(Done(Refusal(v.learners, c.LearnerLimit(), start.id, start.builds)))
    case StopTrain(_) => Some(Done(None))
    case Train(id) => if id in v.learners then None else Some(NotFound)
    case Validate(id, live) => if id in (if live then v.lives else v.evaluators) then None else Some(NotFound)
    case StartPredict(id, builds) => Some(Done(Refusal(models, c.ModelLimit(), id, builds)))
    case StopPredict(_) => Some(Done(None))
    case Predict(id) => if id in models then None else Some(NotFound)
  }

  function Sent(call: Call, r: Reply): Call { call.(buf := call.buf + [r], sent := call.sent + 1) }

  ghost predicate Enabled(s: State, a: Action) {
    match a
    case Enter(c, req) => c !in s.calls && Stoppable(req)
    case Check(c) => c in s.calls && s.calls[c].phase.Entered?
    case Accept(c) => c in s.calls && s.calls[c].phase.Offering? && s.loop.Idle?
    case GiveUp(c) => c in s.calls && s.calls[c].phase.Offering? && s.loop.Stopped?
    case Handle => s.loop.Handling? && s.loop.c in s.calls && Stoppable(s.calls[s.loop.c].req)
    case Send => s.loop.Replying? && s.loop.c in s.calls && |s.calls[s.loop.c].buf| < 1
    case Work(c, _) => c in s.workers && c in s.calls && |s.calls[c].buf| < 1
    case Receive(c) => c in s.calls && s.calls[c].phase.Waiting? && s.calls[c].buf != []
    case AskStop(k) => k !in s.stops
    case TakeStop(k) => k in s.stops && s.stops[k].Asking? && s.loop.Idle?
    case Close => s.loop.Closing?
    case StopReturns(k) => k in s.stops && !s.stops[k].Back? && s.loop.Stopped?
  }

  ghost function Next(cfg: Config, s: State, a: Action): State
    requires Enabled(s, a)
  {
    match a
    case Enter(c, req) => s.(calls := s.calls[c := Call(req, Entered, [], 0)])
    case Check(c) =>
      s.(calls := s.calls[c := s.calls[c].(phase := if s.loop.Stopped? then Refused else Offering)])
    case Accept(c) =>
      s.(calls := s.calls[c := s.calls[c].(phase := Waiting)], loop := Handling(c), accepted := s.accepted + [c])
    case GiveUp(c) => s.(calls := s.calls[c := s.calls[c].(phase := Refused)])
    case Handle =>
      var r := s.calls[s.loop.c].req;
      var answer := Answer(cfg, s.tasks, s.models, r);
      s.(tasks := TasksAfter(s.tasks, cfg.LearnerLimit(), r),
         models := ModelsAfter(s.models, cfg.ModelLimit(), r),
         loop := if answer.Some? then Replying(s.loop.c, answer.value) else Idle,
         workers := if answer.Some? then s.workers else s.workers + {s.loop.c})
    case Send =>
      s.(calls := s.calls[s.loop.c := Sent(s.calls[s.loop.c], s.loop.reply)], loop := Idle)
    case Work(c, reply) =>
      s.(calls := s.calls[c := Sent(s.calls[c], reply)], workers := s.workers - {c})
    case Receive(c) =>
      var call := s.calls[c];
      s.(calls := s.calls[c := call.(phase := Answered(call.buf[0]), buf := call.buf[1..])])
    case AskStop(k) => s.(stops := s.stops[k := Asking])
    case TakeStop(k) => s.(stops := s.stops[k := Acknowledged], loop := Closing)
    case Close => s.(loop := Stopped)
    case StopReturns(k) => s.(stops := s.stops[k := Back])
  }

  // ---------------------------------------------------------------- what every step keeps

  predicate ByLoop(s: State, c: nat) {
    (s.loop.Handling? || s.loop.Replying?) && s.loop.c == c
  }

  /** A call is answered by exactly one of loop and worker, and only once. */
  ghost predicate GoodCall(s: State, c: nat)
    requires c in s.calls
  {
    var call := s.calls[c];
    && Stoppable(call.req)
    && !(c in s.workers && ByLoop(s, c))
    && (c in s.accepted <==> call.phase.Waiting? || call.phase.Answered?)
    && match call.phase
       case Waiting =>
         if c in s.workers || ByLoop(s, c) then call.sent == 0 && call.buf == []
         else call.sent == 1 && |call.buf| == 1
       case Answered(_) => c !in s.workers && !ByLoop(s, c) && call.sent == 1 && call.buf == []
       case _ => c !in s.workers && !ByLoop(s, c) && call.sent == 0 && call.buf == []
  }

  ghost predicate WithinLimits(cfg: Config, s: State) {
    |s.tasks.learners| <= cfg.LearnerLimit() && |s.models| <= cfg.ModelLimit()
  }

  ghost predicate Inv(cfg: Config, s: State) {
    && (forall c :: c in s.calls ==> GoodCall(s, c))
    && (forall c :: c in s.workers || c in s.accepted || ByLoop(s, c) ==> c in s.calls)
    && (forall i, j :: 0 <= i < j < |s.accepted| ==> s.accepted[i] != s.accepted[j])
    && (forall k :: k in s.stops && s.stops[k].Back? ==> s.loop.Stopped?)
    && WithinLimits(cfg, s)
  }

  lemma HandleWithinLimits(cfg: Config, s: State)
    requires WithinLimits(cfg, s) && Enabled(s, Handle)
    ensures WithinLimits(cfg, Next(cfg, s, Handle))
  {
    var r := s.calls[s.loop.c].req;
    if r.StopTrain? || r.StopPredict? {
      SmallerSet(s.tasks.learners, r.id);
      SmallerSet(s.models, r.id);
    }
  }

  lemma CallStep(cfg: Config, s: State, a: Action, c: nat)
    requires Inv(cfg, s) && Enabled(s, a) && c in Next(cfg, s, a).calls
    ensures GoodCall(Next(cfg, s, a), c)
  {
    if c in s.calls {
      assert GoodCall(s, c);
    }
  }

  lemma StepInv(cfg: Config, s: State, a: Action)
    requires Inv(cfg, s) && Enabled(s, a)
    ensures Inv(cfg, Next(cfg, s, a))
  {
    var t := Next(cfg, s, a);
    forall c | c in t.calls ensures GoodCall(t, c) { CallStep(cfg, s, a, c); }
    if a.Handle? { HandleWithinLimits(cfg, s); }
    if a.Accept? { assert GoodCall(s, a.c); }
  }

  // ---------------------------------------------------------------- whole runs

  ghost predicate Run(cfg: Config, states: seq<State>, actions: seq<Action>) {
    && |states| == |actions| + 1
    && Init(states[0])
    && forall i :: 0 <= i < |actions| ==>
         Enabled(states[i], actions[i]) && states[i + 1] == Next(cfg, states[i], actions[i])
  }

  lemma {:induction false} RunInv(cfg: Config, states: seq<State>, actions: seq<Action>, n: nat)
    requires Run(cfg, states, actions) && n < |states|
    ensures Inv(cfg, states[n])
  {
    if n > 0 {
      RunInv(cfg, states, actions, n - 1);
      StepInv(cfg, states[n - 1], actions[n - 1]);
    }
  }

  /** In every run an accepted request is answered at most once, and until it is, exactly one of
      loop and workers owes the answer; a request that was not accepted gets none. */
  lemma OneReplyEach(cfg: Config, states: seq<State>, actions: seq<Action>, n: nat, c: nat)
    requires Run(cfg, states, actions) && n < |states| && c in states[n].calls
    ensures var s := states[n];
            var call := s.calls[c];
            if c in s.accepted then call.sent == (if c in s.workers || ByLoop(s, c) then 0 else 1)
            else call.sent == 0
    ensures states[n].calls[c].phase.Answered? ==> states[n].calls[c].sent == 1
    ensures !(c in states[n].workers && ByLoop(states[n], c))
  {
    RunInv(cfg, states, actions, n);
    assert GoodCall(states[n], c);
  }

  /** Neither loop nor worker ever waits for room to reply, and the loop is always ready to take a
      request or a stop, has its next step, or has stopped. */
  lemma NeverBlocks(cfg: Config, states: seq<State>, actions: seq<Action>, n: nat)
    requires Run(cfg, states, actions) && n < |states|
    ensures var s := states[n];
            && (s.loop.Handling? ==> Enabled(s, Handle)) && (s.loop.Replying? ==> Enabled(s, Send))
            && (s.loop.Closing? ==> Enabled(s, Close))
    ensures forall c, r :: c in states[n].workers ==> Enabled(states[n], Work(c, r))
    ensures forall c :: c in states[n].calls && states[n].calls[c].sent == 1 && states[n].calls[c].phase.Waiting?
                        ==> Enabled(states[n], Receive(c))
  {
    RunInv(cfg, states, actions, n);
    var s := states[n];
    if s.loop.Handling? || s.loop.Replying? {
      assert ByLoop(s, s.loop.c);
      assert GoodCall(s, s.loop.c);
    }
    forall c | c in s.calls && (c in s.workers || s.calls[c].phase.Waiting?)
      ensures c in s.workers ==> s.calls[c].buf == []
      ensures s.calls[c].sent == 1 && s.calls[c].phase.Waiting? ==> s.calls[c].buf != []
    {
      assert GoodCall(s, c);
    }
  }

  /** Nothing can happen any more but new calls and new stops. */
  ghost predicate AtRest(s: State) { forall a :: Enabled(s, a) ==> a.Enter? || a.AskStop? }

  /** In every run that has come to rest each call is over: answered once if its request was accepted,
      and refused without an answer if it was not. */
  lemma AllAnswered(cfg: Config, states: seq<State>, actions: seq<Action>, n: nat)
    requires Run(cfg, states, actions) && n < |states| && AtRest(states[n])
    ensures var s := states[n];
            forall c :: c in s.calls ==>
              if c in s.accepted then s.calls[c].phase.Answered? && s.calls[c].sent == 1
              else s.calls[c].phase.Refused? && s.calls[c].sent == 0
    ensures states[n].workers == {} && (states[n].loop.Idle? || states[n].loop.Stopped?)
  {
    RunInv(cfg, states, actions, n);
    NeverBlocks(cfg, states, actions, n);
    var s := states[n];
    assert !Enabled(s, Handle) && !Enabled(s, Send) && !Enabled(s, Close);
    forall c ensures c !in s.workers { assert !Enabled(s, Work(c, NotFound)); }
    forall c | c in s.calls
      ensures if c in s.accepted then s.calls[c].phase.Answered? && s.calls[c].sent == 1
              else s.calls[c].phase.Refused? && s.calls[c].sent == 0
    {
      assert GoodCall(s, c);
      assert !Enabled(s, Check(c)) && !Enabled(s, Accept(c)) && !Enabled(s, GiveUp(c)) && !Enabled(s, Receive(c));
    }
  }

  /** The loop leaves its work exactly when it has taken a stop, and nobody is refused or let back before
      it has stopped. */
  ghost predicate StopsWhenAsked(s: State) {
    && (s.loop.Closing? || s.loop.Stopped? <==> exists k :: k in s.stops && !s.stops[k].Asking?)
    && (forall k :: k in s.stops && s.stops[k].Back? ==> s.loop.Stopped?)
    && (forall c :: c in s.calls && s.calls[c].phase.Refused? ==> s.loop.Stopped?)
  }

  lemma StepStops(cfg: Config, s: State, a: Action)
    requires StopsWhenAsked(s) && Enabled(s, a)
    ensures StopsWhenAsked(Next(cfg, s, a))
  {
    var t := Next(cfg, s, a);
    if k :| k in s.stops && !s.stops[k].Asking? { assert k in t.stops && !t.stops[k].Asking?; }
    if a.TakeStop? { assert a.k in t.stops && !t.stops[a.k].Asking?; }
    if a.StopReturns? { assert a.k in t.stops && !t.stops[a.k].Asking?; }
  }

  lemma {:induction false} RunStops(cfg: Config, states: seq<State>, actions: seq<Action>, n: nat)
    requires Run(cfg, states, actions) && n < |states|
    ensures StopsWhenAsked(states[n])
    decreases n
  {
    if n > 0 {
      RunStops(cfg, states, actions, n - 1);
      StepStops(cfg, states[n - 1], actions[n - 1]);
    }
  }

  /** In every run that has come to rest: if nobody asked for a stop, the loop is idle and every call has been
      accepted and answered; if somebody did, the loop has stopped and every Stop has returned. */
  lemma ServesUntilStopped(cfg: Config, states: seq<State>, actions: seq<Action>, n: nat)
    requires Run(cfg, states, actions) && n < |states| && AtRest(states[n])
    ensures var s := states[n];
            if s.stops == map[] then
              s.loop.Idle? && forall c :: c in s.calls ==> c in s.accepted && s.calls[c].phase.Answered?
            else
              s.loop.Stopped? && forall k :: k in s.stops ==> s.stops[k].Back?
  {
    AllAnswered(cfg, states, actions, n);
    RunStops(cfg, states, actions, n);
    var s := states[n];
    forall k | k in s.stops ensures s.stops[k].Back? {
      assert !Enabled(s, TakeStop(k)) && !Enabled(s, StopReturns(k));
    }
    assert s.stops != map[] ==> exists k :: k in s.stops;
  }

  function Last(states: seq<State>): State
    requires states != []
  {
    states[|states| - 1]
  }

  lemma Extend(cfg: Config, states: seq<State>, actions: seq<Action>, a: Action)
    returns (states': seq<State>, actions': seq<Action>)
    requires Run(cfg, states, actions) && Enabled(Last(states), a)
    ensures Run(cfg, states', actions') && actions' == actions + [a] && Last(states') == Next(cfg, Last(states), a)
  {
    states', actions' := states + [Next(cfg, Last(states), a)], actions + [a];
  }

  /** Wherever the loop is idle a new call can be made, and is answered in six steps. */
  lemma CallReturns(cfg: Config, states: seq<State>, actions: seq<Action>, c: nat, req: Request, work: Reply)
    returns (states': seq<State>, actions': seq<Action>)
    requires Run(cfg, states, actions) && Last(states).loop.Idle? && c !in Last(states).calls && Stoppable(req)
    ensures Run(cfg, states', actions') && |actions'| == |actions| + 6 && actions'[..|actions|] == actions
    ensures Last(states').loop.Idle? && Last(states').stops == Last(states).stops
    ensures c in Last(states').calls && Last(states').calls[c].phase.Answered?
  {
    states', actions' := Extend(cfg, states, actions, Enter(c, req));
    states', actions' := Extend(cfg, states', actions', Check(c));
    states', actions' := Extend(cfg, states', actions', Accept(c));
    states', actions' := HandleAndReply(cfg, states', actions', c, work);
    states', actions' := Extend(cfg, states', actions', Receive(c));
  }

  lemma HandleAndReply(cfg: Config, states: seq<State>, actions: seq<Action>, c: nat, work: Reply)
    returns (states': seq<State>, actions': seq<Action>)
    requires Run(cfg, states, actions) && Last(states).loop == Handling(c) && c in Last(states).calls
    requires Stoppable(Last(states).calls[c].req)
    requires Last(states).calls[c].phase.Waiting? && Last(states).calls[c].buf == []
    ensures Run(cfg, states', actions') && |actions'| == |actions| + 2 && actions'[..|actions|] == actions
    ensures Last(states').loop.Idle? && Last(states').stops == Last(states).stops
    ensures c in Last(states').calls && Last(states').calls[c].phase.Waiting? && |Last(states').calls[c].buf| == 1
  {
    states', actions' := Extend(cfg, states, actions, Handle);
    if Last(states').loop.Replying? {
      states', actions' := Extend(cfg, states', actions', Send);
    } else {
      states', actions' := Extend(cfg, states', actions', Work(c, work));
    }
  }

  /** Wherever the loop is idle a Stop can be asked for, and returns in four steps. */
  lemma StopComesBack(cfg: Config, states: seq<State>, actions: seq<Action>, k: nat)
    returns (states': seq<State>, actions': seq<Action>)
    requires Run(cfg, states, actions) && Last(states).loop.Idle? && k !in Last(states).stops
    ensures Run(cfg, states', actions') && actions' == actions + [AskStop(k), TakeStop(k), Close, StopReturns(k)]
    ensures k in Last(states').stops && Last(states').stops[k].Back? && Last(states').loop.Stopped?
  {
    states', actions' := Extend(cfg, states, actions, AskStop(k));
    states', actions' := Extend(cfg, states', actions', TakeStop(k));
    states', actions' := Extend(cfg, states', actions', Close);
    states', actions' := Extend(cfg, states', actions', StopReturns(k));
  }

  lemma LimitsHold(cfg: Config, states: seq<State>, actions: seq<Action>, n: nat)
    requires Run(cfg, states, actions) && n < |states|
    ensures |states[n].tasks.learners| <= cfg.trainTasks * 21 + 600
    ensures |states[n].models| <= cfg.predictTasks + cfg.trainTasks * 21 + 600
  {
    RunInv(cfg, states, actions, n);
  }

  /** From the moment a Stop has returned nothing is accepted any more, and whoever still
      offers a request, or comes later, can only be refused. */
  lemma {:induction false} NothingAfterStop(cfg: Config, states: seq<State>, actions: seq<Action>,
                                            m: nat, n: nat, k: nat)
    requires Run(cfg, states, actions) && m <= n < |states|
    requires k in states[m].stops && states[m].stops[k].Back?
    ensures states[n].loop.Stopped? && states[n].accepted == states[m].accepted
    ensures forall c :: c in states[n].calls && c !in states[m].accepted ==>
              var p := states[n].calls[c].phase; p.Entered? || p.Offering? || p.Refused?
  {
    RunInv(cfg, states, actions, n);
    forall c | c in states[n].calls ensures GoodCall(states[n], c) {}
    if m == n {
      assert states[m].loop.Stopped?;
    } else {
      NothingAfterStop(cfg, states, actions, m, n - 1, k);
      assert Enabled(states[n - 1], actions[n - 1]);
    }
  }

  // ---------------------------------------------------------------- what each call is answered

  /** What a request for something that is held, or not, needs. */
  predicate Known(s: State, r: Request)
    requires r.Train? || r.Validate? || r.Predict?
  {
    match r
    case Train(id) => id in s.tasks.learners
    case Validate(id, live) => if live then id in s.tasks.lives else id in s.tasks.evaluators
    case Predict(id) => id in s.models
  }

  /** In every run: a request to train, validate or predict goes to a worker exactly if the learner, the
      evaluator, the live evaluator or the model of that ID is held when the loop handles it, and is
      answered "not found" by the loop exactly if it is not; tasks and models stay as they are. */
  lemma RequestsRouted(cfg: Config, states: seq<State>, actions: seq<Action>, n: nat, c: nat)
    requires Run(cfg, states, actions) && n < |actions| && actions[n].Handle? && states[n].loop == Handling(c)
    requires var r := states[n].calls[c].req; r.Train? || r.Validate? || r.Predict?
    ensures var s, t, r := states[n], states[n + 1], states[n].calls[c].req;
            && (Known(s, r) <==> t.loop == Idle && c in t.workers)
            && (!Known(s, r) <==> t.loop == Replying(c, NotFound))
            && t.workers == (if Known(s, r) then s.workers + {c} else s.workers)
            && t.tasks == s.tasks && t.models == s.models
  {
    RunInv(cfg, states, actions, n);
    assert ByLoop(states[n], c) && GoodCall(states[n], c);
  }

  predicate Startable(held: set<TaskId>, limit: nat, id: TaskId, builds: bool) {
    |held| < limit && id !in held && builds
  }

  /** Which error a start has: the limit is looked at first, then the task, then whether it can be built. */
  predicate StartFails(held: set<TaskId>, limit: nat, id: TaskId, builds: bool, e: StartError) {
    match e
    case TooManyTasks => |held| >= limit
    case TaskExists => |held| < limit && id in held
    case Unbuildable => |held| < limit && id !in held && !builds
  }

  /** In every run: a training task is started without an error exactly if there is room, it is not held
      and can be built, and is held then; else nothing is started, and the error is the one that applies. */
  lemma TrainStarted(cfg: Config, states: seq<State>, actions: seq<Action>, n: nat, c: nat)
    requires Run(cfg, states, actions) && n < |actions| && actions[n].Handle? && states[n].loop == Handling(c)
    requires states[n].calls[c].req.StartTrain?
    ensures var s, t, r := states[n], states[n + 1], states[n].calls[c].req.start;
            var limit := cfg.trainTasks * 21 + 600;
            && (Startable(s.tasks.learners, limit, r.id, r.builds) <==> t.loop == Replying(c, Done(None)))
            && (forall e :: StartFails(s.tasks.learners, limit, r.id, r.builds, e)
                            <==> t.loop == Replying(c, Done(Some(e))))
            && t.tasks.learners == (if Startable(s.tasks.learners, limit, r.id, r.builds) then s.tasks.learners + {r.id}
                                    else s.tasks.learners)
            && t.workers == s.workers && t.models == s.models
  {
  }

  lemma PredictStarted(cfg: Config, states: seq<State>, actions: seq<Action>, n: nat, c: nat)
    requires Run(cfg, states, actions) && n < |actions| && actions[n].Handle? && states[n].loop == Handling(c)
    requires states[n].calls[c].req.StartPredict?
    ensures var s, t, r := states[n], states[n + 1], states[n].calls[c].req;
            var limit := cfg.predictTasks + cfg.trainTasks * 21 + 600;
            && (Startable(s.models, limit, r.id, r.builds) <==> t.loop == Replying(c, Done(None)))
            && (forall e :: StartFails(s.models, limit, r.id, r.builds, e) <==> t.loop == Replying(c, Done(Some(e))))
            && t.models == (if Startable(s.models, limit, r.id, r.builds) then s.models + {r.id} else s.models)
            && t.workers == s.workers && t.tasks == s.tasks
  {
  }

  /** Stopping is answered without an error whether the task was held or not, and it is gone then. */
  lemma StopHandled(cfg: Config, states: seq<State>, actions: seq<Action>, n: nat, c: nat)
    requires Run(cfg, states, actions) && n < |actions| && actions[n].Handle? && states[n].loop == Handling(c)
    requires var r := states[n].calls[c].req; r.StopTrain? || r.StopPredict?
    ensures var s, t, r := states[n], states[n + 1], states[n].calls[c].req;
            && t.loop == Replying(c, Done(None)) && t.workers == s.workers
            && t.tasks.learners == (if r.StopTrain? then s.tasks.learners - {r.id} else s.tasks.learners)
            && t.models == (if r.StopPredict? then s.models - {r.id} else s.models)
  {
  }

  /** Action `i` handles a request to stop that training task. */
  ghost predicate StopsTrain(states: seq<State>, actions: seq<Action>, i: nat, id: TaskId)
    requires i < |actions| && i < |states|
  {
    var s := states[i];
    actions[i].Handle? && s.loop.Handling? && s.loop.c in s.calls && s.calls[s.loop.c].req == StopTrain(id)
  }

  ghost predicate StopsPredict(states: seq<State>, actions: seq<Action>, i: nat, id: TaskId)
    requires i < |actions| && i < |states|
  {
    var s := states[i];
    actions[i].Handle? && s.loop.Handling? && s.loop.c in s.calls && s.calls[s.loop.c].req == StopPredict(id)
  }

  lemma StepHolds(cfg: Config, states: seq<State>, actions: seq<Action>, n: nat, id: TaskId)
    requires Run(cfg, states, actions) && n < |actions|
    ensures id in states[n].tasks.learners && !StopsTrain(states, actions, n, id) ==> id in states[n + 1].tasks.learners
    ensures id in states[n].models && !StopsPredict(states, actions, n, id) ==> id in states[n + 1].models
  {
  }

  /** In every run a task or a model that is held stays held until a request to stop it is handled. */
  lemma {:induction false} HeldUntilStop(cfg: Config, states: seq<State>, actions: seq<Action>, m: nat, n: nat,
                                         id: TaskId)
    requires Run(cfg, states, actions) && m <= n < |states|
    ensures id in states[m].tasks.learners && (forall i :: m <= i < n ==> !StopsTrain(states, actions, i, id))
            ==> id in states[n].tasks.learners
    ensures id in states[m].models && (forall i :: m <= i < n ==> !StopsPredict(states, actions, i, id))
            ==> id in states[n].models
    decreases n
  {
    if m < n {
      HeldUntilStop(cfg, states, actions, m, n - 1, id);
      StepHolds(cfg, states, actions, n - 1, id);
    }
  }

  /** The reply is on its way to the caller, or there. */
  ghost predicate Underway(s: State, c: nat, r: Reply) {
    c in s.calls
    && (s.loop == Replying(c, r) || s.calls[c].buf == [r] || s.calls[c].phase == Answered(r))
  }

  lemma StepUnderway(cfg: Config, s: State, a: Action, c: nat, r: Reply)
    requires Inv(cfg, s) && Enabled(s, a) && Underway(s, c, r)
    ensures Underway(Next(cfg, s, a), c, r)
  {
    assert GoodCall(s, c);
    assert s.loop == Replying(c, r) ==> ByLoop(s, c);
  }

  lemma {:induction false} StillUnderway(states: seq<State>, m: nat, n: nat, c: nat, r: Reply)
    requires m <= n < |states| && Underway(states[m], c, r)
    requires forall i :: 0 <= i < |states| - 1 && Underway(states[i], c, r) ==> Underway(states[i + 1], c, r)
    ensures Underway(states[n], c, r)
    decreases n
  {
    if m < n { StillUnderway(states, m, n - 1, c, r); }
  }

  lemma ArrivesAsSent(cfg: Config, s: State, c: nat, r: Reply)
    requires Inv(cfg, s) && Underway(s, c, r)
    ensures s.calls[c].phase.Answered? ==> s.calls[c].phase.reply == r
  {
    assert GoodCall(s, c);
    assert s.loop == Replying(c, r) ==> ByLoop(s, c);
  }

  /** In every run: once the loop has a reply to a call, or a worker has sent one, that is the reply with
      which the call returns. */
  lemma RepliesArrive(cfg: Config, states: seq<State>, actions: seq<Action>, m: nat, n: nat, c: nat, r: Reply)
    requires Run(cfg, states, actions) && m <= n < |states| && Underway(states[m], c, r)
    ensures Underway(states[n], c, r)
    ensures states[n].calls[c].phase.Answered? ==> states[n].calls[c].phase.reply == r
  {
    forall i | 0 <= i < |states| - 1 && Underway(states[i], c, r) ensures Underway(states[i + 1], c, r) {
      RunInv(cfg, states, actions, i);
      StepUnderway(cfg, states[i], actions[i], c, r);
    }
    StillUnderway(states, m, n, c, r);
    RunInv(cfg, states, actions, n);
    ArrivesAsSent(cfg, states[n], c, r);
  }
}
