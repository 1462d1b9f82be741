/**
 The completion of cross validation, when the predictions of the folds come in.

 Each prediction that comes in is handled by its own goroutine, which first records the
 fold and then, as a step of its own, counts the folds recorded so far. Results of a fold
 may come in more than once.
 */
module Folds {

  datatype Phase = Recording(fold: nat) | Counting

  datatype State = State(recorded: set<nat>, workers: map<nat, Phase>, callbacks: nat)

  datatype Action =
    | Arrive(w: nat, fold: nat)
    | Record(w: nat)
    | Drop(w: nat)     // an outcome that does not parse, or is too small
    | Count(w: nat)

  ghost predicate Init(s: State) { s == State({}, map[], 0) }

  /** The evaluator made the IDs, so results are of its own folds. */
  ghost predicate Enabled(folds: nat, s: State, a: Action) {
    match a
    case Arrive(w, fold) => w !in s.workers && fold < folds
    case Record(w) => w in s.workers && s.workers[w].Recording?
    case Drop(w) => w in s.workers && s.workers[w].Recording?
    case Count(w) => w in s.workers && s.workers[w].Counting?
  }

  ghost function Next(folds: nat, s: State, a: Action): State
    requires Enabled(folds, s, a)
  {
    match a
    case Arrive(w, fold) => s.(workers := s.workers[w := Recording(fold)])
    case Record(w) => s.(recorded := s.recorded + {s.workers[w].fold}, workers := s.workers[w := Counting])
    case Drop(w) => s.(workers := s.workers - {w})
    case Count(w) =>
      s.(workers := s.workers - {w},
         callbacks := if |s.recorded| < folds then s.callbacks else s.callbacks + 1)
  }

  ghost predicate AllRecorded(folds: nat, s: State) { forall k :: 0 <= k < folds ==> k in s.recorded }

  ghost predicate SomeCounts(s: State) { exists w :: w in s.workers && s.workers[w].Counting? }

  ghost predicate Inv(folds: nat, s: State) {
    && (forall k :: k in s.recorded ==> k < folds)
    && (forall w :: w in s.workers && s.workers[w].Recording? ==> s.workers[w].fold < folds)
    && (s.callbacks > 0 ==> AllRecorded(folds, s))
    && (AllRecorded(folds, s) && folds > 0 ==> s.callbacks > 0 || SomeCounts(s))
  }

  /** Among folds below `n`, having `n` of them is having all. */
  lemma {:induction false} FullSet(n: nat, a: set<nat>)
    requires forall k :: k in a ==> k < n
    ensures |a| <= n
    ensures |a| == n <==> forall k :: 0 <= k < n ==> k in a
  {
    if n > 0 {
      var b := a - {n - 1};
      FullSet(n - 1, b);
      if n - 1 in a { assert a == b + {n - 1}; } else { assert a == b; }
    }
  }

  lemma StepInv(folds: nat, s: State, a: Action)
    requires Inv(folds, s) && Enabled(folds, s, a)
    ensures Inv(folds, Next(folds, s, a))
  {
    var t := Next(folds, s, a);
    FullSet(folds, s.recorded);
    if SomeCounts(s) {
      var w :| w in s.workers && s.workers[w].Counting?;
      if !a.Count? || a.w != w { assert w in t.workers && t.workers[w].Counting?; }
    }
    if a.Record? { assert a.w in t.workers && t.workers[a.w].Counting?; }
  }

  ghost predicate Run(folds: nat, states: seq<State>, actions: seq<Action>) {
    && |states| == |actions| + 1
    && Init(states[0])
    && forall i :: 0 <= i < |actions| ==>
         Enabled(folds, states[i], actions[i]) && states[i + 1] == Next(folds, states[i], actions[i])
  }

  lemma {:induction false} RunInv(folds: nat, states: seq<State>, actions: seq<Action>, n: nat)
    requires Run(folds, states, actions) && n < |states|
    ensures Inv(folds, states[n])
  {
    if n == 0 {
      assert 0 !in states[0].recorded;
    } else {
      RunInv(folds, states, actions, n - 1);
      StepInv(folds, states[n - 1], actions[n - 1]);
    }
  }

  /** The trainer is called back only when all folds are recorded; and once they are and nothing
      is at work any more, it has been. */
  lemma CalledBackWhenComplete(folds: nat, states: seq<State>, actions: seq<Action>, n: nat)
    requires Run(folds, states, actions) && n < |states|
    ensures states[n].callbacks > 0 ==> AllRecorded(folds, states[n])
    ensures AllRecorded(folds, states[n]) && folds > 0 && states[n].workers == map[] ==> states[n].callbacks > 0
  {
    RunInv(folds, states, actions, n);
  }

  // ---------------------------------------------------------------- how often it is called back

  function CountingWorkers(workers: map<nat, Phase>): set<nat> { set w | w in workers && workers[w].Counting? }

  function Records(actions: seq<Action>): nat {
    if actions == [] then 0
    else Records(actions[..|actions| - 1]) + if actions[|actions| - 1].Record? then 1 else 0
  }

  /** In state `t` of the run all folds are recorded for the first time. */
  ghost predicate FirstComplete(folds: nat, states: seq<State>, t: nat) {
    t < |states| && AllRecorded(folds, states[t]) && forall i :: 0 <= i < t ==> !AllRecorded(folds, states[i])
  }

  lemma {:induction false} FirstCompleteExists(folds: nat, states: seq<State>, n: nat) returns (t: nat)
    requires n < |states| && AllRecorded(folds, states[n])
    ensures t <= n && FirstComplete(folds, states, t)
  {
    t := n;
    if i :| 0 <= i < n && AllRecorded(folds, states[i]) {
      t := FirstCompleteExists(folds, states, i);
    }
  }

  lemma CounterMore(workers: map<nat, Phase>, w: nat)
    requires w in workers && workers[w].Recording?
    ensures |CountingWorkers(workers[w := Counting])| == |CountingWorkers(workers)| + 1
    ensures CountingWorkers(workers - {w}) == CountingWorkers(workers)
  {
    assert CountingWorkers(workers[w := Counting]) == CountingWorkers(workers) + {w};
  }

  lemma CounterLess(workers: map<nat, Phase>, w: nat)
    requires w in workers && workers[w].Counting?
    ensures |CountingWorkers(workers)| == |CountingWorkers(workers - {w})| + 1
  {
    assert CountingWorkers(workers) == CountingWorkers(workers - {w}) + {w};
  }

  /** One action from a complete state: a counter becomes a callback, a record becomes a counter. */
  lemma CompleteStep(folds: nat, s: State, a: Action)
    requires Inv(folds, s) && Enabled(folds, s, a) && AllRecorded(folds, s)
    ensures AllRecorded(folds, Next(folds, s, a))
    ensures Next(folds, s, a).callbacks + |CountingWorkers(Next(folds, s, a).workers)|
            == s.callbacks + |CountingWorkers(s.workers)| + if a.Record? then 1 else 0
  {
    match a
    case Arrive(w, fold) => assert CountingWorkers(s.workers[w := Recording(fold)]) == CountingWorkers(s.workers);
    case Record(w) => CounterMore(s.workers, w);
    case Drop(w) => CounterMore(s.workers, w);
    case Count(w) =>
      FullSet(folds, s.recorded);
      CounterLess(s.workers, w);
  }

  lemma NoneBefore(folds: nat, states: seq<State>, actions: seq<Action>, t: nat)
    requires Run(folds, states, actions) && FirstComplete(folds, states, t)
    ensures states[t].callbacks == 0
    ensures folds > 0 ==> t > 0 && actions[t - 1].Record? && actions[t - 1].w in CountingWorkers(states[t].workers)
  {
    if t == 0 {
      assert 0 !in states[0].recorded;
    } else {
      RunInv(folds, states, actions, t - 1);
      assert Enabled(folds, states[t - 1], actions[t - 1]);
      assert !AllRecorded(folds, states[t - 1]);
    }
  }

  /** From the moment all folds are recorded, callbacks made and still to come are the counters
      of that moment and the results recorded since. */
  lemma {:induction false} CallbacksCounted(folds: nat, states: seq<State>, actions: seq<Action>, t: nat, n: nat)
    requires Run(folds, states, actions) && FirstComplete(folds, states, t) && t <= n < |states|
    ensures AllRecorded(folds, states[n])
    ensures states[n].callbacks + |CountingWorkers(states[n].workers)|
            == |CountingWorkers(states[t].workers)| + Records(actions[t..n])
    decreases n
  {
    if n == t {
      NoneBefore(folds, states, actions, t);
    } else {
      CallbacksCounted(folds, states, actions, t, n - 1);
      RunInv(folds, states, actions, n - 1);
      CompleteStep(folds, states[n - 1], actions[n - 1]);
      assert actions[t..n][..n - 1 - t] == actions[t..n - 1] && actions[t..n][n - 1 - t] == actions[n - 1];
    }
  }

  /** At rest the number of callbacks is that of the goroutines that were counting when the last fold
      was recorded, and of the results recorded later. So there is one callback if and only if then
      only the goroutine of that fold was counting and no result was recorded later. */
  lemma CalledBackOnce(folds: nat, states: seq<State>, actions: seq<Action>, t: nat, n: nat)
    requires Run(folds, states, actions) && FirstComplete(folds, states, t) && t <= n < |states|
    requires folds > 0 && states[n].workers == map[]
    ensures states[n].callbacks == |CountingWorkers(states[t].workers)| + Records(actions[t..n])
    ensures t > 0 && actions[t - 1].Record?
    ensures states[n].callbacks == 1
            <==> CountingWorkers(states[t].workers) == {actions[t - 1].w} && Records(actions[t..n]) == 0
  {
    CallbacksCounted(folds, states, actions, t, n);
    NoneBefore(folds, states, actions, t);
    assert CountingWorkers(states[n].workers) == {};
    var w, ws := actions[t - 1].w, CountingWorkers(states[t].workers);
    assert ws == (ws - {w}) + {w};
    assert |ws| == |ws - {w}| + 1;
  }

  /** Each fold reported once suffices for two callbacks: both goroutines record before either counts. */
  lemma CalledBackTwice() returns (states: seq<State>, actions: seq<Action>)
    ensures Run(2, states, actions)
    ensures actions == [Arrive(0, 0), Arrive(1, 1), Record(0), Record(1), Count(0), Count(1)]
    ensures states[6].callbacks == 2
  {
    actions := [Arrive(0, 0), Arrive(1, 1), Record(0), Record(1), Count(0), Count(1)];
    var s0 := State({}, map[], 0);
    var s1 := Next(2, s0, Arrive(0, 0));
    var s2 := Next(2, s1, Arrive(1, 1));
    var s3 := Next(2, s2, Record(0));
    var s4 := Next(2, s3, Record(1));
    assert s4.recorded == {0, 1};
    var s5 := Next(2, s4, Count(0));
    var s6 := Next(2, s5, Count(1));
    states := [s0, s1, s2, s3, s4, s5, s6];
  }

  /** Every callback takes a result that came in: there are at most as many. */
  lemma {:induction false} CallbacksBounded(folds: nat, states: seq<State>, actions: seq<Action>, n: nat)
    requires Run(folds, states, actions) && n < |states|
    ensures states[n].callbacks + |states[n].workers| <= Arrivals(actions[..n])
  {
    if n > 0 {
      CallbacksBounded(folds, states, actions, n - 1);
      var s, a := states[n - 1], actions[n - 1];
      assert actions[..n] == actions[..n - 1] + [a];
      assert actions[..n][..n - 1] == actions[..n - 1];
      if a.Arrive? {
        assert states[n].workers.Keys == s.workers.Keys + {a.w};
      } else if a.Record? {
        assert states[n].workers.Keys == s.workers.Keys;
      } else {
        assert s.workers.Keys == states[n].workers.Keys + {a.w};
      }
      assert |states[n].workers| == |states[n].workers.Keys| && |s.workers| == |s.workers.Keys|;
    }
  }

  function Arrivals(actions: seq<Action>): (n: nat)
    ensures n <= |actions|
    ensures n == 0 <==> forall a :: a in actions ==> !a.Arrive?
  {
    if actions == [] then 0
    else Arrivals(actions[..|actions| - 1]) + if actions[|actions| - 1].Arrive? then 1 else 0
  }
}
