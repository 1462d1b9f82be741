/**
 The trainer and the predictor of a computing node: who holds which task, up to the
 limits, and where results go.

 Learners, models and evaluators are known here by their task IDs only.
 */
module Trainers {
  import opened Wrappers
  import opened TaskIds

  /** A request to start training. `builds` and the two evaluations say what the hidden
      constructors make of it: whether the learner can be built, and whether an evaluator
      and a live evaluator are asked for and can be built. */
  datatype StartRequest = StartRequest(id: TaskId, hasFile: bool, evaluation: bool, live: bool, builds: bool)

  datatype StartError = TooManyTasks | TaskExists | Unbuildable

  datatype Tasks = Tasks(
    learners: set<TaskId>,
    evaluators: set<TaskId>,
    lives: set<TaskId>,
    results: set<TaskId>)

  function Refusal(held: set<TaskId>, limit: nat, id: TaskId, builds: bool): Option<StartError> {
    if limit <= |held| then Some(TooManyTasks)
    else if id in held then Some(TaskExists)
    else if !builds then Some(Unbuildable)
    else None
  }

  function With(s: set<TaskId>, yes: bool, id: TaskId): set<TaskId> {
    if yes then s + {id} else s
  }

  /** The live evaluator comes before the learner, and stays if there is no learner. */
  function Started(v: Tasks, limit: nat, r: StartRequest): Tasks {
    match Refusal(v.learners, limit, r.id, r.builds)
    case Some(TooManyTasks) => v
    case Some(TaskExists) => v
    case Some(Unbuildable) => v.(lives := With(v.lives, r.hasFile && r.live, r.id))
    case None =>
      v.(learners := v.learners + {r.id},
         evaluators := With(v.evaluators, r.evaluation, r.id),
         lives := With(v.lives, r.hasFile && r.live, r.id))
  }

  function Deleted(v: Tasks, id: TaskId): Tasks
    requires Parseable(id)
  {
    var o := TrainOrigin(id);
    Tasks(v.learners - {id},
          if o.FromUser? then v.evaluators - {id} else v.evaluators,
          if o.FromLive? then v.lives else v.lives - {id},
          if o.FromUser? then v.results - {id} else v.results)
  }

  datatype Destination =
    | Evaluate                                       // its evaluator starts cross validation
    | ToEvaluator(source: TaskId)                    // the model of a fold; its training is stopped
    | ToLive(source: TaskId)                         // a staged model; its training goes on
    | Persist                                        // the user's model; its training is stopped
    | Lost(source: TaskId)                           // no evaluator of that name

  function ResultGoes(v: Tasks, id: TaskId, success: bool): Destination
    requires Parseable(id)
  {
    if id in v.evaluators && success then Evaluate
    else
      match TrainOrigin(id)
      case FromUser => Persist
      case FromEvaluator(source) => if source in v.evaluators then ToEvaluator(source) else Lost(source)
      case FromLive(source) => if source in v.lives then ToLive(source) else Lost(source)
  }

  /** A result is kept while its task is to be evaluated. */
  function Saved(v: Tasks, id: TaskId, success: bool): Tasks {
    v.(results := With(v.results, success && id in v.evaluators, id))
  }

  class Trainer {
    const learnerLimit: nat
    var learners: set<TaskId>
    var evaluators: set<TaskId>
    var liveEvaluators: set<TaskId>
    var trainResults: set<TaskId>

    constructor (learnerLimit: nat)
      ensures this.learnerLimit == learnerLimit && Seen() == Tasks({}, {}, {}, {})
    {
      this.learnerLimit := learnerLimit;
      learners, evaluators, liveEvaluators, trainResults := {}, {}, {}, {};
    }

    ghost function Seen(): Tasks
      reads this
    {
      Tasks(learners, evaluators, liveEvaluators, trainResults)
    }

    method NewLearner(r: StartRequest) returns (err: Option<StartError>)
      modifies this
      ensures Seen() == Started(old(Seen()), learnerLimit, r)
      ensures err == Refusal(old(learners), learnerLimit, r.id, r.builds)
    {
      if learnerLimit <= |learners| { return Some(TooManyTasks); }
      if r.id in learners { return Some(TaskExists); }
      if r.hasFile {
        NewLiveEvaluator(r);
      }
      if !r.builds { return Some(Unbuildable); }
      learners := learners + {r.id};
      if r.evaluation {
        evaluators := evaluators + {r.id};
      }
      return None;
    }

    method NewLiveEvaluator(r: StartRequest)
      modifies `liveEvaluators
      ensures liveEvaluators == With(old(liveEvaluators), r.live, r.id)
    {
      if r.live {
        liveEvaluators := liveEvaluators + {r.id};
      }
    }

    /** Also says which evaluators are told to stop. */
    method DeleteLearner(id: TaskId) returns (stopEvaluator: bool, stopLive: bool)
      requires Parseable(id)
      modifies this
      ensures Seen() == Deleted(old(Seen()), id)
      ensures stopEvaluator <==> id in old(evaluators) && id !in evaluators
      ensures stopLive <==> id in old(liveEvaluators) && id !in liveEvaluators
    {
      stopEvaluator, stopLive := false, false;
      learners := learners - {id};
      var origin := TrainOrigin(id);
      if !origin.FromLive? {
        if !origin.FromEvaluator? {
          if id in evaluators {
            stopEvaluator := true;
            evaluators := evaluators - {id};
          }
          trainResults := trainResults - {id};
        }
        if id in liveEvaluators {
          stopLive := true;
          liveEvaluators := liveEvaluators - {id};
        }
      }
    }

    /** Where a training result goes. The model of a fold goes to the evaluator of its source, and the
        fold's training ends; a staged model goes to the live evaluator of its source, and training goes
        on; a user's model is evaluated if that was asked for, and else persisted, which ends it. */
    method SaveResult(id: TaskId, success: bool) returns (to: Destination, stopped: bool)
      requires Parseable(id)
      modifies `trainResults
      ensures to.Evaluate? <==> success && id in evaluators
      ensures forall source, k :: '_' !in source && id == EvaTrain(source, k) && !to.Evaluate? ==>
                to == (if source in evaluators then ToEvaluator(source) else Lost(source)) && stopped
      ensures forall source :: id == LivTrain(source) && !to.Evaluate? ==>
                to == (if source in liveEvaluators then ToLive(source) else Lost(source)) && !stopped
      ensures '_' !in id && !to.Evaluate? ==> to == Persist && stopped
      ensures to.Evaluate? ==> !stopped && id in trainResults
      ensures Seen() == Saved(old(Seen()), id, success)
      ensures to == ResultGoes(Seen(), id, success)
    {
      forall source, k | '_' !in source && id == EvaTrain(source, k) ensures TrainOrigin(id) == FromEvaluator(source) {
        TrainRouted(Train(source, k));
      }
      forall source | id == LivTrain(source) ensures TrainOrigin(id) == FromLive(source) {
        LiveTrainRoutedBack(source);
      }
      if '_' !in id { TrainRouted(Plain(id)); }
      if id in evaluators && success {
        trainResults := trainResults + {id};
        return Evaluate, false;
      }
      match TrainOrigin(id)
      case FromEvaluator(source) =>
        return if source in evaluators then ToEvaluator(source) else Lost(source), true;
      case FromLive(source) =>
        return if source in liveEvaluators then ToLive(source) else Lost(source), false;
      case FromUser =>
        return Persist, true;
    }
  }

  class Predictor {
    const modelLimit: nat
    var models: set<TaskId>

    constructor (modelLimit: nat)
      ensures this.modelLimit == modelLimit && models == {}
    {
      this.modelLimit := modelLimit;
      models := {};
    }

    method NewModel(id: TaskId, builds: bool) returns (err: Option<StartError>)
      modifies this
      ensures err == Refusal(old(models), modelLimit, id, builds)
      ensures models == With(old(models), err.None?, id)
    {
      if modelLimit <= |models| { return Some(TooManyTasks); }
      if id in models { return Some(TaskExists); }
      if !builds { return Some(Unbuildable); }
      models := models + {id};
      return None;
    }

    method DeleteModel(id: TaskId)
      modifies this
      ensures models == old(models) - {id}
    {
      models := models - {id};
    }
  }

  // ---------------------------------------------------------------- all runs of starts, results and stops

  lemma SmallerSet<T>(a: set<T>, x: T)
    ensures |a - {x}| <= |a|
  {
    if x in a {
      assert a == (a - {x}) + {x};
    } else {
      assert a - {x} == a;
    }
  }

  datatype Event = Start(r: StartRequest) | Result(id: TaskId, success: bool) | Stop(id: TaskId)

  /** Evaluators drop the evaluation parameters from the requests they make, and live evaluators
      also those of live evaluation, so no such request asks for them. */
  ghost predicate ByTheRules(e: Event) {
    match e
    case Start(r) =>
      Parseable(r.id) && (r.evaluation ==> TrainOrigin(r.id).FromUser?) && (r.live ==> !TrainOrigin(r.id).FromLive?)
    case Result(id, _) => Parseable(id)
    case Stop(id) => Parseable(id)
  }

  ghost predicate Step(limit: nat, v: Tasks, e: Event, w: Tasks) {
    match e
    case Start(r) => w == Started(v, limit, r)
    case Result(id, success) => w == Saved(v, id, success)
    case Stop(id) => Parseable(id) && w == Deleted(v, id)
  }

  ghost predicate Run(limit: nat, states: seq<Tasks>, events: seq<Event>) {
    && |states| == |events| + 1
    && states[0] == Tasks({}, {}, {}, {})
    && forall i :: 0 <= i < |events| ==> ByTheRules(events[i]) && Step(limit, states[i], events[i], states[i + 1])
  }

  ghost predicate Inv(limit: nat, v: Tasks) {
    && |v.learners| <= limit && v.results <= v.evaluators
    && (forall id :: id in v.evaluators ==> id in v.learners && Parseable(id) && TrainOrigin(id).FromUser?)
    && (forall id :: id in v.lives ==> Parseable(id) && !TrainOrigin(id).FromLive?)
  }

  lemma StepInv(limit: nat, v: Tasks, e: Event, w: Tasks)
    requires Inv(limit, v) && ByTheRules(e) && Step(limit, v, e, w)
    ensures Inv(limit, w)
  {
    if e.Stop? { SmallerSet(v.learners, e.id); }
  }

  /** At every moment of every run: the limit is kept, evaluators belong to present tasks of users,
      results to tasks with an evaluator, and live evaluators to no live evaluator's own task. */
  lemma {:induction false} RunInv(limit: nat, states: seq<Tasks>, events: seq<Event>, n: nat)
    requires Run(limit, states, events) && n < |states|
    ensures Inv(limit, states[n])
    decreases n
  {
    if n > 0 {
      RunInv(limit, states, events, n - 1);
      StepInv(limit, states[n - 1], events[n - 1], states[n]);
    }
  }

  /** What a start makes of a trainer, in every run: without room, or with the task held, nothing changes;
      else a live evaluator asked for is there, and if the learner could be built, it is there and so is an
      evaluator asked for; nothing else changes. */
  lemma StartsExactly(limit: nat, states: seq<Tasks>, events: seq<Event>, n: nat)
    requires Run(limit, states, events) && n < |events| && events[n].Start?
    ensures var v, w, r := states[n], states[n + 1], events[n].r;
            var room := |v.learners| < limit && r.id !in v.learners;
            && (forall x :: x in w.learners <==> x in v.learners || (x == r.id && room && r.builds))
            && (forall x :: x in w.evaluators <==> x in v.evaluators || (x == r.id && room && r.builds && r.evaluation))
            && (forall x :: x in w.lives <==> x in v.lives || (x == r.id && room && r.hasFile && r.live))
            && w.results == v.results
  {
    assert Step(limit, states[n], events[n], states[n + 1]);
  }

  /** A live evaluator without its learner. */
  ghost predicate Orphan(v: Tasks, id: TaskId) { id in v.lives && id !in v.learners }

  /** The learner could not be built after its live evaluator was. */
  ghost predicate HalfStarted(limit: nat, v: Tasks, e: Event, id: TaskId) {
    e.Start? && e.r.id == id && e.r.hasFile && e.r.live
    && Refusal(v.learners, limit, id, e.r.builds) == Some(Unbuildable)
  }

  /** The learner is there after all, or stopped. */
  ghost predicate Resolved(limit: nat, v: Tasks, e: Event, id: TaskId) {
    match e
    case Start(r) => r.id == id && Refusal(v.learners, limit, id, r.builds).None?
    case Result(_, _) => false
    case Stop(x) => x == id
  }

  ghost predicate OrphanFollows(limit: nat, v: Tasks, e: Event, w: Tasks, id: TaskId) {
    Orphan(w, id) <==> HalfStarted(limit, v, e, id) || (Orphan(v, id) && !Resolved(limit, v, e, id))
  }

  lemma OrphanStep(limit: nat, v: Tasks, e: Event, w: Tasks, id: TaskId)
    requires Inv(limit, v) && ByTheRules(e) && Step(limit, v, e, w)
    ensures OrphanFollows(limit, v, e, w, id)
  {
  }

  /** In event `i` the learner was only half started, and nothing before `n` has resolved that. */
  ghost predicate LeftBehind(limit: nat, states: seq<Tasks>, events: seq<Event>, i: nat, n: nat, id: TaskId)
    requires |states| == |events| + 1 && n <= |events|
  {
    && i < n && HalfStarted(limit, states[i], events[i], id)
    && forall j :: i < j < n ==> !Resolved(limit, states[j], events[j], id)
  }

  ghost predicate SomeLeftBehind(limit: nat, states: seq<Tasks>, events: seq<Event>, n: nat, id: TaskId)
    requires |states| == |events| + 1 && n <= |events|
  {
    exists i: nat :: LeftBehind(limit, states, events, i, n, id)
  }

  lemma LeftBehindStep(limit: nat, states: seq<Tasks>, events: seq<Event>, n: nat, id: TaskId)
    requires |states| == |events| + 1 && 0 < n <= |events|
    ensures SomeLeftBehind(limit, states, events, n, id)
            <==> HalfStarted(limit, states[n - 1], events[n - 1], id)
                 || (SomeLeftBehind(limit, states, events, n - 1, id)
                     && !Resolved(limit, states[n - 1], events[n - 1], id))
  {
    var m := n - 1;
    if HalfStarted(limit, states[m], events[m], id) {
      assert LeftBehind(limit, states, events, m, n, id);
    } else if !Resolved(limit, states[m], events[m], id) {
      if i: nat :| LeftBehind(limit, states, events, i, m, id) {
        assert LeftBehind(limit, states, events, i, n, id);
      }
    }
    if i: nat :| LeftBehind(limit, states, events, i, n, id) {
      assert i < m ==> LeftBehind(limit, states, events, i, m, id);
    }
  }

  lemma {:induction false} OrphansFollow(limit: nat, states: seq<Tasks>, events: seq<Event>, n: nat, id: TaskId)
    requires |states| == |events| + 1 && n <= |events| && !Orphan(states[0], id)
    requires forall i :: 0 <= i < |events| ==> OrphanFollows(limit, states[i], events[i], states[i + 1], id)
    ensures Orphan(states[n], id) <==> SomeLeftBehind(limit, states, events, n, id)
    decreases n
  {
    if n > 0 {
      OrphansFollow(limit, states, events, n - 1, id);
      LeftBehindStep(limit, states, events, n, id);
      assert OrphanFollows(limit, states[n - 1], events[n - 1], states[n - 1 + 1], id);
    }
  }

  /** Exactly which runs leave a live evaluator without a learner: those in which a learner could not
      be built after its live evaluator was, and was neither stopped nor started successfully since. */
  lemma OrphansExactly(limit: nat, states: seq<Tasks>, events: seq<Event>, n: nat, id: TaskId)
    requires Run(limit, states, events) && n <= |events|
    ensures Orphan(states[n], id) <==> SomeLeftBehind(limit, states, events, n, id)
  {
    forall i | 0 <= i < |events| ensures OrphanFollows(limit, states[i], events[i], states[i + 1], id) {
      RunInv(limit, states, events, i);
      OrphanStep(limit, states[i], events[i], states[i + 1], id);
    }
    OrphansFollow(limit, states, events, n, id);
  }

  /** Stopping a user's task leaves nothing of it behind, and touches no other. */
  lemma StoppedLeavesNothing(limit: nat, states: seq<Tasks>, events: seq<Event>, n: nat, id: TaskId)
    requires Run(limit, states, events) && n < |events| && events[n] == Stop(id) && '_' !in id
    ensures var w := states[n + 1]; id !in w.learners + w.evaluators + w.lives + w.results
    ensures forall x :: x != id ==>
              var v, w := states[n], states[n + 1];
              && (x in w.learners <==> x in v.learners) && (x in w.evaluators <==> x in v.evaluators)
              && (x in w.lives <==> x in v.lives) && (x in w.results <==> x in v.results)
  {
    assert Step(limit, states[n], events[n], states[n + 1]);
    TrainRouted(Plain(id));
  }

  lemma {:induction false} StillStopped(limit: nat, states: seq<Tasks>, events: seq<Event>, n: nat, m: nat, id: TaskId)
    requires Run(limit, states, events) && n < m <= |events| && events[n] == Stop(id) && '_' !in id
    requires forall i :: n < i < m && events[i].Start? ==> events[i].r.id != id
    ensures var v := states[m]; id !in v.learners + v.evaluators + v.lives + v.results
    decreases m
  {
    if m == n + 1 {
      StoppedLeavesNothing(limit, states, events, n, id);
    } else {
      StillStopped(limit, states, events, n, m - 1, id);
      assert Step(limit, states[m - 1], events[m - 1], states[m - 1 + 1]);
    }
  }

  /** In every run, from the stop of a user's task until it is started again: nothing of the task itself
      is there; the stop has left its folds and staged tasks as they were, to be stopped by themselves;
      and what they still report is lost. */
  lemma AfterStop(limit: nat, states: seq<Tasks>, events: seq<Event>, n: nat, m: nat, id: TaskId, k: nat, success: bool)
    requires Run(limit, states, events) && n < m <= |events| && events[n] == Stop(id) && '_' !in id
    requires forall i :: n < i < m && events[i].Start? ==> events[i].r.id != id
    ensures var v := states[m]; id !in v.learners + v.evaluators + v.lives + v.results
    ensures forall x :: x == EvaTrain(id, k) || x == LivTrain(id) || x == LivTrain(EvaTrain(id, k)) ==>
              && (x in states[n + 1].learners <==> x in states[n].learners)
              && (x in states[n + 1].lives <==> x in states[n].lives)
    ensures Parseable(EvaTrain(id, k)) && ResultGoes(states[m], EvaTrain(id, k), success) == Lost(id)
    ensures Parseable(LivTrain(id)) && ResultGoes(states[m], LivTrain(id), success) == Lost(id)
  {
    StillStopped(limit, states, events, n, m, id);
    StoppedLeavesNothing(limit, states, events, n, id);
    RunInv(limit, states, events, m);
    TrainRouted(Plain(id));
    TrainRouted(Train(id, k));
    TrainRouted(LiveTrain(id));
    TrainRouted(NestedTrain(id, k));
  }

  /** In every run: the model of a fold reaches the evaluator that asked for it, under its fold number,
      and a staged model the live evaluator of its task. */
  lemma ModelsComeBack(limit: nat, states: seq<Tasks>, events: seq<Event>, n: nat,
                                          id: TaskId, k: nat, success: bool)
    requires Run(limit, states, events) && n < |states|
    requires '_' !in id && id in states[n].evaluators
    ensures Parseable(EvaTrain(id, k)) && ResultGoes(states[n], EvaTrain(id, k), success) == ToEvaluator(id)
    ensures k < INT64 ==> TrainFold(EvaTrain(id, k)) == Some(k)
    ensures Parseable(LivTrain(id))
    ensures id in states[n].lives ==> ResultGoes(states[n], LivTrain(id), success) == ToLive(id)
    ensures Parseable(LivTrain(EvaTrain(id, k)))
    ensures EvaTrain(id, k) in states[n].lives ==>
              ResultGoes(states[n], LivTrain(EvaTrain(id, k)), success) == ToLive(EvaTrain(id, k))
  {
    RunInv(limit, states, events, n);
    TrainRouted(Train(id, k));
    TrainRouted(LiveTrain(id));
    TrainRouted(NestedTrain(id, k));
  }
}
