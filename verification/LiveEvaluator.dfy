/**
 The live evaluator: training is paused again and again, and in every pause the staged
 model is trained and validated once.

 All its operations hold one mutex, so a run is a sequence of calls.
 */
module LiveEvaluators {
  import opened Wrappers

  datatype CaseType = Regression | BinaryClass

  /** What is evaluated, and whether this party has the target tag. */
  datatype Setup = Setup(caseType: CaseType, tagPart: bool)

  /** What the hidden parts make of a trigger: whether splitting the samples got as far as a splitter,
      and whether everything else works. */
  datatype Trigger = Trigger(round: nat, setAndRun: bool, divided: bool, works: bool)

  /** A training result, whether its model parses, and whether its prediction set can be had. */
  datatype TrainResult = TrainResult(success: bool, parses: bool, hasSet: bool)

  /** A prediction, and whether its metric scores are calculated to the end. */
  datatype Prediction = Prediction(success: bool, evaluates: bool)

  datatype Outcome = Accepted | Repeated | NoSplitter | Failed

  datatype Live = Live(pauseRound: nat, trainRes: Option<bool>, predictRes: Option<Prediction>, splitter: bool)

  /** A later round begins without results; what the samples were split by stays. */
  ghost predicate Enters(v: Live, w: Live, t: Trigger) {
    && v.pauseRound < t.round == w.pauseRound
    && w.trainRes.None? && w.predictRes.None?
    && (w.splitter <==> v.splitter || (t.setAndRun && t.divided))
  }

  /** Binary classification calls the learner back once when the scores are there, or there is no tag to
      calculate them with, and once more on leaving. */
  predicate Doubles(setup: Setup, p: Prediction) {
    p.success && setup.caseType.BinaryClass? && (!setup.tagPart || p.evaluates)
  }

  /** A call with what it did: a round entered, a result taken and whether a prediction was started,
      a prediction taken and how often the learner was called back, or nothing. */
  datatype Event =
    | Entered(t: Trigger)
    | Trained(res: TrainResult, predicts: bool)
    | Predicted(p: Prediction, callbacks: nat)
    | Refused

  /** What an event does to a live evaluator. */
  ghost predicate Step(setup: Setup, v: Live, e: Event, w: Live) {
    match e
    case Entered(t) => Enters(v, w, t)
    case Trained(res, predicts) =>
      v.trainRes.None? && w == v.(trainRes := Some(res.success))
      && (predicts <==> res.success && res.parses && res.hasSet)
    case Predicted(p, callbacks) =>
      && v.predictRes.None? && w == v.(predictRes := Some(p))
      && callbacks == if Doubles(setup, p) then 2 else 1
    case Refused => w == v
  }

  class LiveEvaluator {
    const setup: Setup
    var pauseRound: nat
    var trainRes: Option<bool>
    var predictRes: Option<Prediction>
    var splitter: bool

    constructor (setup: Setup)
      ensures this.setup == setup && Seen() == Live(0, None, None, false)
    {
      this.setup := setup;
      pauseRound, trainRes, predictRes, splitter := 0, None, None, false;
    }

    ghost function Seen(): Live
      reads this
    {
      Live(pauseRound, trainRes, predictRes, splitter)
    }

    /** A round that was entered before changes nothing; a later one is entered even if its
        evaluation then does not start. */
    method Trigger(t: Trigger) returns (r: Outcome, ghost e: Event)
      modifies this
      ensures Step(setup, old(Seen()), e, Seen()) && e == if r.Repeated? then Refused else Entered(t)
      ensures r.Repeated? <==> t.round <= old(pauseRound)
      ensures r.Repeated? ==> Seen() == old(Seen())
      ensures !r.Repeated? ==> Enters(old(Seen()), Seen(), t)
      ensures r.Accepted? <==> !r.Repeated? && t.works && (if t.setAndRun then t.divided else old(splitter))
      ensures r.NoSplitter? <==> !r.Repeated? && !t.setAndRun && !old(splitter)
      ensures r.Failed? <==> !r.Repeated? && (if t.setAndRun then !t.divided || !t.works else old(splitter) && !t.works)
    {
      if pauseRound >= t.round { return Repeated, Refused; }
      pauseRound, trainRes, predictRes := t.round, None, None;
      if t.setAndRun {
        if !t.divided { return Failed, Entered(t); }
        splitter := true;
      } else if !splitter {
        return NoSplitter, Entered(t);
      }
      return if t.works then Accepted else Failed, Entered(t);
    }

    /** The first result of a round is taken, whatever it is worth; a prediction is started for a
        model only. */
    method SaveModel(res: TrainResult) returns (r: Outcome, predicts: bool, ghost e: Event)
      modifies `trainRes
      ensures Step(setup, old(Seen()), e, Seen())
      ensures e == if r.Repeated? then Refused else Trained(res, predicts)
      ensures r.Repeated? <==> old(trainRes).Some?
      ensures trainRes == if r.Repeated? then old(trainRes) else Some(res.success)
      ensures predicts <==> old(trainRes).None? && res.success && res.parses && res.hasSet
      ensures r.Accepted? <==> old(trainRes).None? && (res.success ==> res.parses && res.hasSet)
      ensures r.Failed? <==> old(trainRes).None? && res.success && !(res.parses && res.hasSet)
    {
      if trainRes.Some? { return Repeated, false, Refused; }
      trainRes := Some(res.success);
      if !res.success { return Accepted, false, Trained(res, false); }
      if !res.parses { return Failed, false, Trained(res, false); }
      if !res.hasSet { return Failed, false, Trained(res, false); }
      return Accepted, true, Trained(res, true);
    }

    /** The first prediction of a round is taken, and the evaluated learner called back to go on:
        twice exactly for a successful one in binary classification whose scores are there, or
        that has no tag, and once otherwise. */
    method SavePredictOut(p: Prediction) returns (r: Outcome, callbacks: nat, ghost e: Event)
      modifies `predictRes
      ensures Step(setup, old(Seen()), e, Seen()) && e == if r.Repeated? then Refused else Predicted(p, callbacks)
      ensures r.Repeated? <==> old(predictRes).Some?
      ensures r.Accepted? <==> old(predictRes).None?
      ensures predictRes == if r.Repeated? then old(predictRes) else Some(p)
      ensures callbacks <= 2 && (callbacks == 0 <==> r.Repeated?)
      ensures callbacks == 2 <==>
                !r.Repeated? && p.success && setup.caseType == BinaryClass && (setup.tagPart ==> p.evaluates)
    {
      if predictRes.Some? { return Repeated, 0, Refused; }
      predictRes := Some(p);
      if !p.success { return Accepted, 1, Predicted(p, 1); }
      match setup.caseType {
        case Regression => callbacks := CalMetricScoresCaseRegression(p.evaluates);
        case BinaryClass => callbacks := CalMetricScoresCaseBinClass(p.evaluates);
      }
      return Accepted, callbacks, Predicted(p, callbacks);
    }

    /** Calls the learner back on leaving, however it leaves. */
    method CalMetricScoresCaseRegression(evaluates: bool) returns (callbacks: nat)
      ensures callbacks == 1
    {
      if setup.tagPart {
        if !evaluates { return 1; }
      }
      callbacks := 1;
    }

    /** Calls the learner back at the end of either branch, and once more on leaving. */
    method CalMetricScoresCaseBinClass(evaluates: bool) returns (callbacks: nat)
      ensures 1 <= callbacks <= 2
      ensures callbacks == 1 <==> setup.tagPart && !evaluates
    {
      callbacks := 0;
      if setup.tagPart {
        if !evaluates { return callbacks + 1; }
        callbacks := callbacks + 1;
      } else {
        callbacks := callbacks + 1;
      }
      callbacks := callbacks + 1;
    }
  }

  // ---------------------------------------------------------------- runs

  ghost predicate Run(setup: Setup, states: seq<Live>, events: seq<Event>) {
    && |states| == |events| + 1
    && states[0] == Live(0, None, None, false)
    && forall i :: 0 <= i < |events| ==> Step(setup, states[i], events[i], states[i + 1])
  }

  lemma {:induction false} RoundsGrow(setup: Setup, states: seq<Live>, events: seq<Event>, i: nat, j: nat)
    requires Run(setup, states, events) && i <= j < |states|
    ensures states[i].pauseRound <= states[j].pauseRound
    decreases j
  {
    if i < j {
      RoundsGrow(setup, states, events, i, j - 1);
      assert Step(setup, states[j - 1], events[j - 1], states[j]);
    }
  }

  /** Rounds are entered in ascending order, so none twice, whatever is called when. */
  lemma RoundsEnteredOnce(setup: Setup, states: seq<Live>, events: seq<Event>, i: nat, j: nat)
    requires Run(setup, states, events) && i < j < |events| && events[i].Entered? && events[j].Entered?
    ensures events[i].t.round < events[j].t.round
  {
    assert Step(setup, states[i], events[i], states[i + 1]) && Step(setup, states[j], events[j], states[j + 1]);
    RoundsGrow(setup, states, events, i + 1, j);
  }

  lemma {:induction false} ResultKept(setup: Setup, states: seq<Live>, events: seq<Event>, i: nat, j: nat)
    requires Run(setup, states, events) && i < j < |states|
    requires forall k :: i < k < j ==> !events[k].Entered?
    ensures events[i].Trained? ==> states[j].trainRes.Some?
    ensures events[i].Predicted? ==> states[j].predictRes.Some?
    decreases j
  {
    assert Step(setup, states[j - 1], events[j - 1], states[j]);
    if i + 1 < j {
      ResultKept(setup, states, events, i, j - 1);
    }
  }

  /** In every run: between two training results, or two predictions, that are taken, a new round was entered. */
  lemma OneResultARound(setup: Setup, states: seq<Live>, events: seq<Event>, i: nat, j: nat)
    requires Run(setup, states, events) && i < j < |events|
    requires (events[i].Trained? && events[j].Trained?) || (events[i].Predicted? && events[j].Predicted?)
    ensures exists k :: i < k < j && events[k].Entered?
  {
    assert Step(setup, states[j], events[j], states[j + 1]);
    if forall k :: i < k < j ==> !events[k].Entered? {
      ResultKept(setup, states, events, i, j);
    }
  }

  // ---------------------------------------------------------------- how often the learner is called back

  function Callbacks(events: seq<Event>): nat {
    if events == [] then 0
    else
      var e := events[|events| - 1];
      Callbacks(events[..|events| - 1]) + if e.Predicted? then e.callbacks else 0
  }

  /** `i` to `n` are within one round: nothing but the first of these events enters one. */
  ghost predicate WithinRound(events: seq<Event>, i: nat, n: nat) {
    && i <= n <= |events| && (i == 0 || events[i - 1].Entered?)
    && forall k :: i <= k < n ==> !events[k].Entered?
  }

  /** In every run: the callbacks of a round so far are those of the one prediction it has taken. */
  lemma {:induction false} CallbacksOfRound(setup: Setup, states: seq<Live>, events: seq<Event>, i: nat, n: nat)
    requires Run(setup, states, events) && WithinRound(events, i, n)
    ensures Callbacks(events[i..n]) ==
            match states[n].predictRes
            case None => 0
            case Some(p) => if Doubles(setup, p) then 2 else 1
    decreases n
  {
    if i == n {
      assert i > 0 ==> Step(setup, states[i - 1], events[i - 1], states[i - 1 + 1]);
    } else {
      CallbacksOfRound(setup, states, events, i, n - 1);
      assert Step(setup, states[n - 1], events[n - 1], states[n - 1 + 1]);
      assert events[i..n][..n - 1 - i] == events[i..n - 1] && events[i..n][n - 1 - i] == events[n - 1];
    }
  }

  /** A round with a prediction calls the learner back just once if and only if its prediction failed, or the case is
      regression, or the party has the tag and its scores were not calculated to the end. */
  lemma OneCallback(setup: Setup, states: seq<Live>, events: seq<Event>, i: nat, n: nat, p: Prediction)
    requires Run(setup, states, events) && WithinRound(events, i, n) && states[n].predictRes == Some(p)
    ensures Callbacks(events[i..n]) == 1
            <==> !p.success || setup.caseType.Regression? || (setup.tagPart && !p.evaluates)
  {
    CallbacksOfRound(setup, states, events, i, n);
  }

  function CountEntered(events: seq<Event>): (n: nat)
    ensures n <= |events|
    ensures n == 0 <==> forall e :: e in events ==> !e.Entered?
  {
    if events == [] then 0
    else CountEntered(events[..|events| - 1]) + if events[|events| - 1].Entered? then 1 else 0
  }

  /** How many predictions were taken, those that call back twice counted twice. */
  function CountPredicted(setup: Setup, events: seq<Event>): nat {
    if events == [] then 0
    else
      var e := events[|events| - 1];
      CountPredicted(setup, events[..|events| - 1])
      + if !e.Predicted? then 0 else if Doubles(setup, e.p) then 2 else 1
  }

  predicate Twofold(setup: Setup, events: seq<Event>) { exists e :: e in events && e.Predicted? && Doubles(setup, e.p) }

  /** In every run the learner is called back at most once for each round entered, and once before the
      first, if no prediction doubles; and at most twice as often in any case. */
  lemma {:induction false} CallbacksBounded(setup: Setup, states: seq<Live>, events: seq<Event>, n: nat)
    requires Run(setup, states, events) && n <= |events|
    ensures Callbacks(events[..n]) == CountPredicted(setup, events[..n])
    ensures var rounds := CountEntered(events[..n]) + if states[n].predictRes.Some? then 1 else 0;
            Callbacks(events[..n]) <= if Twofold(setup, events[..n]) then 2 * rounds else rounds
  {
    if n > 0 {
      CallbacksBounded(setup, states, events, n - 1);
      var e := events[n - 1];
      assert events[..n][..n - 1] == events[..n - 1] && events[..n][n - 1] == e;
      assert events[..n] == events[..n - 1] + [e];
      assert Twofold(setup, events[..n]) <==> Twofold(setup, events[..n - 1]) || (e.Predicted? && Doubles(setup, e.p));
      assert Step(setup, states[n - 1], e, states[n - 1 + 1]);
    }
  }

  /** In binary classification one round with one prediction suffices for two callbacks. */
  lemma CalledBackTwice(setup: Setup) returns (states: seq<Live>, events: seq<Event>)
    requires setup.caseType.BinaryClass?
    ensures events == [Entered(Trigger(1, true, true, true)), Trained(TrainResult(true, true, true), true),
                       Predicted(Prediction(true, true), 2)]
    ensures Run(setup, states, events) && WithinRound(events, 1, 3) && Callbacks(events[1..3]) == 2
  {
    var p := Prediction(true, true);
    events := [Entered(Trigger(1, true, true, true)), Trained(TrainResult(true, true, true), true), Predicted(p, 2)];
    states := [Live(0, None, None, false), Live(1, None, None, true),
               Live(1, Some(true), None, true), Live(1, Some(true), Some(p), true)];
    CallbacksOfRound(setup, states, events, 1, 3);
  }
}
