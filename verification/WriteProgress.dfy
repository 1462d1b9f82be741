/**
 The write pipeline never sends on a closed channel, every run of it is finite, and a
 run that can go no further has finished exactly when at most FAILED_CAP first pushes
 have failed.
 */
module WriteProgress {
  import opened Wrappers
  import opened Copies
  import opened WritePipeline

  predicate Early(s: State) { s.main.Finishing? || s.main.Failing? }

  function Failures(held: seq<Pushed>): nat {
    if held == [] then 0 else Failures(held[1..]) + if held[0].ok then 0 else 1
  }

  /** Queues respect their capacities. */
  ghost predicate Bounded(cfg: Config, s: State) {
    && |s.cut.items| <= cfg.sliceCap
    && |s.metaQ.items| <= META_CAP && |s.tasks.items| <= TASK_CAP && |s.located.items| <= LOCATED_CAP
    && |s.pairs.items| <= PAIR_CAP && |s.encrypted.items| <= ENCRYPTED_CAP
    && |s.finishedQ.items| <= FINISHED_CAP && |s.failedQ.items| <= FAILED_CAP
    && |s.finishedQ2.items| <= FINISHED_CAP && |s.failedQ2.items| <= FAILED_CAP
    && s.locators.Present() <= WORKERS && s.encryptors.Present() <= WORKERS
    && s.distributors.Present() <= WORKERS
  }

  /** A stage leaves only after its input has closed, and closes its output only after it has left. */
  ghost predicate Upstream(s: State) {
    && (!s.cut.open ==> s.source == [])
    && (s.feeder.FeederGone? <==> !s.tasks.open)
    && (s.feeder.FeederGone? ==> s.cut.Drained())
    && (s.locators.Present() < WORKERS ==> s.tasks.Drained())
    && (s.metaQ.open <==> s.located.open)
    && (!s.located.open ==> s.feeder.FeederGone? && s.locators.Present() == 0)
  }

  ghost predicate Downstream(s: State) {
    && (s.dispatcher.DispatcherGone? <==> !s.pairs.open)
    && (s.dispatcher.DispatcherGone? ==> s.located.Drained())
    && (s.encryptors.Present() < WORKERS ==> s.pairs.Drained())
    && (!s.encrypted.open ==> s.dispatcher.DispatcherGone? && s.encryptors.Present() == 0)
    && (s.distributors.Present() < WORKERS ==> s.encrypted.Drained())
    && (s.finishedQ.open <==> s.failedQ.open)
    && (!s.finishedQ.open ==> s.distributors.Present() == 0)
  }

  /** What the main goroutine has behind it. */
  ghost predicate MainOrder(s: State) {
    && (!s.main.Finishing? ==> s.finishedQ.Drained())
    && (!Early(s) ==> s.failedQ.Drained() && s.failed == [])
    && (s.main.Finishing? ==> s.failed == [])
    && (Early(s) ==> s.pending == [] && s.retriers == [])
    && (Early(s) ==> s.finishedQ2.items == [] && s.failedQ2.items == [] && s.failedTwice == [])
    && (Early(s) || s.main.Retrying? <==> s.finishedQ2.open)
    && (s.finishedQ2.open <==> s.failedQ2.open)
    && (!Early(s) && !s.main.Retrying? ==> s.pending == [] && s.retriers == [])
    && (s.main.Retrying? || s.main.Finishing2? ==> s.failedTwice == [])
    && (!Early(s) && !s.main.Retrying? && !s.main.Finishing2? ==> s.finishedQ2.Drained())
    && (s.main.Relocating? || s.main.Ended? ==> s.failedQ2.Drained())
  }

  /** Where the copies whose first push failed are. */
  ghost predicate FailuresCounted(s: State) {
    && (Early(s) ==> s.pushFailures == Failures(s.distributors.held) + |s.failedQ.items| + |s.failed|)
    && (s.main.Retrying? ==>
          s.pushFailures >= |s.pending| + |s.retriers| + |s.finishedQ2.items| + |s.failedQ2.items|)
    && (!s.main.Finishing? ==> s.pushFailures <= FAILED_CAP)
  }

  ghost predicate Inv(cfg: Config, s: State) {
    Bounded(cfg, s) && Upstream(s) && Downstream(s) && MainOrder(s) && FailuresCounted(s)
  }

  lemma {:induction false} FailuresAppend(held: seq<Pushed>, p: Pushed)
    ensures Failures(held + [p]) == Failures(held) + if p.ok then 0 else 1
  {
    if held != [] {
      assert (held + [p])[1..] == held[1..] + [p];
      FailuresAppend(held[1..], p);
    }
  }

  lemma {:induction false} FailuresRemove(held: seq<Pushed>, i: nat)
    requires i < |held|
    ensures Failures(held) == Failures(held[..i] + held[i + 1..]) + if held[i].ok then 0 else 1
  {
    if i > 0 {
      FailuresRemove(held[1..], i - 1);
      assert (held[..i] + held[i + 1..])[1..] == held[1..][..i - 1] + held[1..][i..];
    } else {
      assert held[..0] + held[1..] == held[1..];
    }
  }

  lemma InitInv(cfg: Config)
    ensures Inv(cfg, Init(cfg))
  {
  }

  predicate Feeding(a: Action) {
    a.SlicerCuts? || a.SlicerCloses? || a.FeederReads? || a.FeederSendsMeta? || a.FeederSendsTask?
    || a.FeederEnds? || a.CollectorReads?
  }

  predicate Locating(a: Action) {
    Feeding(a) || a.LocatorReads? || a.LocatorSends? || a.LocatorEnds? || a.LocateCloses?
  }

  predicate Encrypting(a: Action) {
    a.DispatcherReads? || a.DispatcherSends? || a.DispatcherEnds? || a.EncryptorReads?
    || a.EncryptorSends? || a.EncryptorEnds? || a.EncryptCloses?
  }

  predicate Distributing(a: Action) {
    a.DistributorReads? || a.DistributorFinishes? || a.DistributorFails? || a.DistributorEnds?
    || a.DistributeCloses?
  }

  predicate Main(a: Action) {
    !Locating(a) && !Encrypting(a) && !Distributing(a)
  }

  lemma StepFeeding(cfg: Config, s: State, a: Action)
    requires Inv(cfg, s) && Enabled(cfg, s, a) && Feeding(a)
    ensures Inv(cfg, Next(cfg, s, a))
  {
  }

  lemma StepLocating(cfg: Config, s: State, a: Action)
    requires Inv(cfg, s) && Enabled(cfg, s, a) && Locating(a)
    ensures Inv(cfg, Next(cfg, s, a))
  {
    if Feeding(a) { StepFeeding(cfg, s, a); }
  }

  lemma StepEncrypting(cfg: Config, s: State, a: Action)
    requires Inv(cfg, s) && Enabled(cfg, s, a) && Encrypting(a)
    ensures Inv(cfg, Next(cfg, s, a))
  {
  }

  lemma StepDistributing(cfg: Config, s: State, a: Action)
    requires Inv(cfg, s) && Enabled(cfg, s, a) && Distributing(a)
    ensures Inv(cfg, Next(cfg, s, a))
  {
    StepDistributingQueues(cfg, s, a);
    StepDistributingCount(cfg, s, a);
  }

  lemma StepDistributingCount(cfg: Config, s: State, a: Action)
    requires Inv(cfg, s) && Enabled(cfg, s, a) && Distributing(a)
    ensures MainOrder(Next(cfg, s, a)) && FailuresCounted(Next(cfg, s, a))
  {
    var held := s.distributors.held;
    match a
    case DistributorReads(ok) => FailuresAppend(held, Pushed(s.encrypted.items[0], ok));
    case DistributorFinishes(i) => FailuresRemove(held, i);
    case DistributorFails(i) => FailuresRemove(held, i);
    case _ =>
  }

  lemma StepDistributingQueues(cfg: Config, s: State, a: Action)
    requires Inv(cfg, s) && Enabled(cfg, s, a) && Distributing(a)
    ensures Bounded(cfg, Next(cfg, s, a)) && Upstream(Next(cfg, s, a)) && Downstream(Next(cfg, s, a))
  {
  }

  lemma StepMain(cfg: Config, s: State, a: Action)
    requires Inv(cfg, s) && Enabled(cfg, s, a) && Main(a)
    ensures Inv(cfg, Next(cfg, s, a))
  {
    StepMainQueues(cfg, s, a);
    StepMainOrder(cfg, s, a);
    StepMainCount(cfg, s, a);
  }

  lemma StepMainQueues(cfg: Config, s: State, a: Action)
    requires Inv(cfg, s) && Enabled(cfg, s, a) && Main(a)
    ensures Bounded(cfg, Next(cfg, s, a)) && Upstream(Next(cfg, s, a)) && Downstream(Next(cfg, s, a))
  {
  }

  lemma StepMainOrder(cfg: Config, s: State, a: Action)
    requires Inv(cfg, s) && Enabled(cfg, s, a) && Main(a)
    ensures MainOrder(Next(cfg, s, a))
  {
  }

  lemma StepMainCount(cfg: Config, s: State, a: Action)
    requires Inv(cfg, s) && Enabled(cfg, s, a) && Main(a)
    ensures FailuresCounted(Next(cfg, s, a))
  {
  }

  lemma StepInv(cfg: Config, s: State, a: Action)
    requires Inv(cfg, s) && Enabled(cfg, s, a)
    ensures Inv(cfg, Next(cfg, s, a))
  {
    if Locating(a) { StepLocating(cfg, s, a); }
    else if Encrypting(a) { StepEncrypting(cfg, s, a); }
    else if Distributing(a) { StepDistributing(cfg, s, a); }
    else { StepMain(cfg, s, a); }
  }

  // ---------------------------------------------------------------- runs

  /** `path` is a run: it starts empty-handed and each action leads from one state to the next. */
  ghost predicate Run(cfg: Config, path: seq<State>, acts: seq<Action>) {
    && |path| == |acts| + 1 && path[0] == Init(cfg)
    && forall k :: 0 <= k < |acts| ==> Enabled(cfg, path[k], acts[k]) && path[k + 1] == Next(cfg, path[k], acts[k])
  }

  lemma {:induction false} RunInv(cfg: Config, path: seq<State>, acts: seq<Action>)
    requires Run(cfg, path, acts)
    ensures forall k :: 0 <= k < |path| ==> Inv(cfg, path[k])
    decreases |acts|
  {
    InitInv(cfg);
    var n := |acts|;
    if n > 0 {
      var before, last := path[..n], acts[..n - 1];
      assert forall k :: 0 <= k < n - 1 ==> last[k] == acts[k];
      RunInv(cfg, before, last);
      assert Inv(cfg, before[n - 1]) && before[n - 1] == path[n - 1];
      StepInv(cfg, path[n - 1], acts[n - 1]);
      assert forall k :: 0 <= k < n ==> path[k] == before[k];
    }
  }

  /** What is ever queued or at work at the same time. */
  lemma QueuesStaySmall(cfg: Config, path: seq<State>, acts: seq<Action>, n: nat)
    requires Run(cfg, path, acts) && n < |path|
    ensures var s := path[n];
            && |s.metaQ.items| <= 10 && |s.tasks.items| <= 10 && |s.located.items| <= 8 && |s.pairs.items| <= 4
            && |s.encrypted.items| <= 10 && |s.finishedQ.items| <= 10 && |s.failedQ.items| <= 10
            && |s.finishedQ2.items| <= 10 && |s.failedQ2.items| <= 10
            && |s.locators.held| <= 4 && |s.encryptors.held| <= 4 && |s.distributors.held| <= 4
  {
    RunInv(cfg, path, acts);
    assert Inv(cfg, path[n]);
  }

  /** No worker stays idle while there is something to take, be it the last one that is idle. */
  lemma NoWorkerIdles(cfg: Config, s: State, nodes: seq<NodeId>)
    ensures s.locators.idle >= 1 && s.tasks.items != [] && Selectable(cfg.nodes, cfg.replica, nodes) ==>
              Enabled(cfg, s, LocatorReads(nodes))
    ensures s.encryptors.idle >= 1 && s.pairs.items != [] ==> Enabled(cfg, s, EncryptorReads)
    ensures s.distributors.idle >= 1 && s.encrypted.items != [] ==>
              Enabled(cfg, s, DistributorReads(true)) && Enabled(cfg, s, DistributorReads(false))
  {
  }

  // ---------------------------------------------------------------- no send on a closed channel

  predicate SendsOnClosed(s: State, a: Action) {
    match a
    case SlicerCuts => !s.cut.open
    case FeederSendsMeta => !s.metaQ.open
    case FeederSendsTask => !s.tasks.open
    case LocatorSends(_) => !s.located.open
    case DispatcherSends => !s.pairs.open
    case EncryptorSends(_) => !s.encrypted.open
    case DistributorFinishes(_) => !s.finishedQ.open
    case DistributorFails(_) => !s.failedQ.open
    case RetryFinishes(_) => !s.finishedQ2.open
    case RetryFails(_) => !s.failedQ2.open
    case _ => false
  }

  lemma NeverSendsOnClosed(cfg: Config, path: seq<State>, acts: seq<Action>, a: Action)
    requires Run(cfg, path, acts) && Enabled(cfg, path[|acts|], a)
    ensures !SendsOnClosed(path[|acts|], a)
  {
    RunInv(cfg, path, acts);
    assert Inv(cfg, path[|acts|]);
  }

  // ---------------------------------------------------------------- every run is finite

  function Flag(b: bool): nat { if b then 1 else 0 }

  function PhaseLeft(p: Phase): nat {
    match p
    case Finishing => 6
    case Failing => 5
    case Retrying => 4
    case Finishing2 => 3
    case Failing2 => 2
    case Relocating => 1
    case Ended(_) => 0
  }

  /** Slices whose copies have not been dealt out yet. */
  function Undealt(s: State): nat {
    |s.source| + |s.cut.items| + Flag(s.feeder.HasSlice? || s.feeder.MetaSent?) + |s.tasks.items|
    + |s.locators.held| + |s.located.items|
  }

  /** Moves these slices have left until they are dealt out. */
  function SliceMoves(s: State): nat {
    8 * |s.source| + 7 * |s.cut.items|
    + (if s.feeder.HasSlice? then 6 else if s.feeder.MetaSent? then 4 else 0)
    + |s.metaQ.items| + 3 * |s.tasks.items| + 2 * |s.locators.held| + |s.located.items|
  }

  /** Moves the dealt copies have left. */
  function CopyMoves(s: State): nat {
    10 * (if s.dispatcher.Dealing? then |s.dispatcher.rest| else 0)
    + 9 * |s.pairs.items| + 8 * |s.encryptors.held| + 7 * |s.encrypted.items| + 6 * |s.distributors.held|
    + |s.finishedQ.items| + 5 * |s.failedQ.items| + 4 * |s.failed|
    + 3 * |s.pending| + 2 * |s.retriers| + |s.finishedQ2.items| + |s.failedQ2.items|
  }

  /** Goroutines still to leave, channels still to close, phases still to come. */
  function Closing(s: State): nat {
    Flag(s.cut.open) + Flag(s.tasks.open) + Flag(s.located.open) + Flag(s.pairs.open)
    + Flag(s.encrypted.open) + Flag(s.finishedQ.open)
    + s.locators.Present() + s.encryptors.Present() + s.distributors.Present() + PhaseLeft(s.main)
  }

  function MovesLeft(s: State): nat {
    SliceMoves(s) + CopyMoves(s) + Closing(s)
  }

  function Times(k: nat, n: nat): nat { k * n }

  function Measure(cfg: Config, s: State): nat {
    Times(10 * cfg.replica, Undealt(s)) + MovesLeft(s)
  }

  /** Every located slice waiting to be dealt has `replica` nodes. */
  ghost predicate FullyLocated(cfg: Config, s: State) {
    && (forall i :: 0 <= i < |s.locators.held| ==> |s.locators.held[i].nodes| == cfg.replica)
    && (forall i :: 0 <= i < |s.located.items| ==> |s.located.items[i].nodes| == cfg.replica)
  }

  lemma StepFullyLocated(cfg: Config, s: State, a: Action)
    requires FullyLocated(cfg, s) && Enabled(cfg, s, a)
    ensures FullyLocated(cfg, Next(cfg, s, a))
  {
    var t := Next(cfg, s, a);
    if !Locating(a) && !a.DispatcherReads? {
      assert t.locators == s.locators && t.located == s.located;
    }
  }

  lemma OneDealt(k: nat, m: nat, n: nat)
    requires m == n + 1
    ensures Times(k, m) == Times(k, n) + k
  {
  }

  lemma DealMeasure(cfg: Config, s: State)
    requires FullyLocated(cfg, s) && Enabled(cfg, s, DispatcherReads)
    ensures Measure(cfg, Next(cfg, s, DispatcherReads)) < Measure(cfg, s)
  {
    OneDealt(10 * cfg.replica, Undealt(s), Undealt(Next(cfg, s, DispatcherReads)));
  }

  /** The action uses up at least one move and deals no slice out. */
  ghost predicate Descends(cfg: Config, s: State, a: Action)
    requires Enabled(cfg, s, a)
  {
    var t := Next(cfg, s, a);
    Undealt(t) == Undealt(s) && MovesLeft(t) < MovesLeft(s)
  }

  lemma LocatingMeasure(cfg: Config, s: State, a: Action)
    requires Upstream(s) && Enabled(cfg, s, a) && Locating(a)
    ensures Descends(cfg, s, a)
  {
    var t := Next(cfg, s, a);
    assert CopyMoves(t) == CopyMoves(s);
    match a
    case SlicerCuts => assert |t.source| == |s.source| - 1 && |t.cut.items| == |s.cut.items| + 1;
    case FeederReads => assert |t.cut.items| == |s.cut.items| - 1;
    case FeederSendsMeta => assert |t.metaQ.items| == |s.metaQ.items| + 1;
    case FeederSendsTask => assert |t.tasks.items| == |s.tasks.items| + 1;
    case CollectorReads => assert |t.metaQ.items| == |s.metaQ.items| - 1;
    case LocatorReads(_) =>
      assert |t.tasks.items| == |s.tasks.items| - 1 && |t.locators.held| == |s.locators.held| + 1;
    case LocatorSends(_) =>
      assert |t.located.items| == |s.located.items| + 1 && |t.locators.held| == |s.locators.held| - 1;
    case _ =>
  }

  lemma EncryptingMeasure(cfg: Config, s: State, a: Action)
    requires Downstream(s) && Enabled(cfg, s, a) && Encrypting(a) && !a.DispatcherReads?
    ensures Descends(cfg, s, a)
  {
    var t := Next(cfg, s, a);
    assert Undealt(t) == Undealt(s) && SliceMoves(t) == SliceMoves(s);
    match a
    case DispatcherSends =>
      assert |t.dispatcher.rest| == |s.dispatcher.rest| - 1 && |t.pairs.items| == |s.pairs.items| + 1;
    case EncryptorReads =>
      assert |t.pairs.items| == |s.pairs.items| - 1 && |t.encryptors.held| == |s.encryptors.held| + 1;
    case EncryptorSends(_) =>
      assert |t.encrypted.items| == |s.encrypted.items| + 1 && |t.encryptors.held| == |s.encryptors.held| - 1;
    case _ =>
  }

  lemma DistributingMeasure(cfg: Config, s: State, a: Action)
    requires Enabled(cfg, s, a) && Distributing(a)
    ensures Descends(cfg, s, a)
  {
    var t := Next(cfg, s, a);
    assert Undealt(t) == Undealt(s) && SliceMoves(t) == SliceMoves(s);
    match a
    case DistributorReads(_) =>
      assert |t.encrypted.items| == |s.encrypted.items| - 1 && |t.distributors.held| == |s.distributors.held| + 1;
    case DistributorFinishes(_) =>
      assert |t.finishedQ.items| == |s.finishedQ.items| + 1 && |t.distributors.held| == |s.distributors.held| - 1;
    case DistributorFails(_) =>
      assert |t.failedQ.items| == |s.failedQ.items| + 1 && |t.distributors.held| == |s.distributors.held| - 1;
    case _ =>
  }

  predicate RetryAction(a: Action) {
    a.RetryDecides? || a.RetryFinishes? || a.RetryFails?
  }

  lemma RetryMeasure(cfg: Config, s: State, a: Action)
    requires Enabled(cfg, s, a) && RetryAction(a)
    ensures Descends(cfg, s, a)
  {
    var t := Next(cfg, s, a);
    assert Undealt(t) == Undealt(s) && SliceMoves(t) == SliceMoves(s) && Closing(t) == Closing(s);
    if a.RetryDecides? {
      assert |t.pending| == |s.pending| - 1 && |t.retriers| == |s.retriers| + 1;
    } else {
      assert |t.retriers| == |s.retriers| - 1;
      assert |t.finishedQ2.items| + |t.failedQ2.items| == |s.finishedQ2.items| + |s.failedQ2.items| + 1;
    }
  }

  lemma MainMeasure(cfg: Config, s: State, a: Action)
    requires Inv(cfg, s) && Enabled(cfg, s, a) && Main(a) && !RetryAction(a)
    ensures Descends(cfg, s, a)
  {
    var t := Next(cfg, s, a);
    assert Undealt(t) == Undealt(s) && SliceMoves(t) == SliceMoves(s);
  }

  lemma StepMeasure(cfg: Config, s: State, a: Action)
    requires Inv(cfg, s) && FullyLocated(cfg, s) && Enabled(cfg, s, a)
    ensures Measure(cfg, Next(cfg, s, a)) < Measure(cfg, s)
  {
    if a.DispatcherReads? { DealMeasure(cfg, s); }
    else {
      if Encrypting(a) { EncryptingMeasure(cfg, s, a); }
      else if Distributing(a) { DistributingMeasure(cfg, s, a); }
      else if RetryAction(a) { RetryMeasure(cfg, s, a); }
      else if Main(a) { MainMeasure(cfg, s, a); }
      else { LocatingMeasure(cfg, s, a); }
      assert Descends(cfg, s, a);
    }
  }

  lemma {:induction false} RunFullyLocated(cfg: Config, path: seq<State>, acts: seq<Action>, n: nat)
    requires Run(cfg, path, acts) && n < |path|
    ensures FullyLocated(cfg, path[n])
  {
    if n > 0 {
      RunFullyLocated(cfg, path, acts, n - 1);
      StepFullyLocated(cfg, path[n - 1], acts[n - 1]);
    }
  }

  lemma {:induction false} DescentIsShort(ms: seq<nat>)
    requires ms != [] && forall k :: 0 <= k < |ms| - 1 ==> ms[k + 1] < ms[k]
    ensures |ms| <= ms[0] + 1
  {
    if |ms| > 1 {
      DescentIsShort(ms[1..]);
    }
  }

  /** No run takes more than `Measure(Init)` actions, whatever the interleaving. */
  lemma RunsAreFinite(cfg: Config, path: seq<State>, acts: seq<Action>)
    requires Run(cfg, path, acts)
    ensures |acts| <= Measure(cfg, Init(cfg))
  {
    var ms := seq(|path|, k requires 0 <= k < |path| => Measure(cfg, path[k]));
    RunInv(cfg, path, acts);
    forall k | 0 <= k < |ms| - 1 ensures ms[k + 1] < ms[k] {
      RunFullyLocated(cfg, path, acts, k);
      StepMeasure(cfg, path[k], acts[k]);
    }
    DescentIsShort(ms);
  }

  // ---------------------------------------------------------------- progress

  ghost predicate Stuck(cfg: Config, s: State) {
    forall a :: !Enabled(cfg, s, a)
  }

  lemma PrefixSelectable(cfg: Config)
    requires cfg.Valid()
    ensures Selectable(cfg.nodes, cfg.replica, cfg.nodes[..cfg.replica])
  {
  }

  /** Once the feeder or the locators hold anything back, someone up there can move. */
  lemma LocatingMoves(cfg: Config, s: State) returns (a: Action)
    requires cfg.Valid() && Inv(cfg, s) && s.located.open && s.located.items == []
    ensures Enabled(cfg, s, a)
  {
    PrefixSelectable(cfg);
    if s.locators.held != [] { a := LocatorSends(0); }
    else if s.locators.idle > 0 && s.tasks.items != [] { a := LocatorReads(cfg.nodes[..cfg.replica]); }
    else if s.locators.idle > 0 && !s.tasks.open { a := LocatorEnds; }
    else if s.metaQ.items != [] { a := CollectorReads; }
    else if s.feeder.FeederGone? { a := LocateCloses; }
    else if s.feeder.HasSlice? { a := FeederSendsMeta; }
    else if s.feeder.MetaSent? { a := FeederSendsTask; }
    else if s.cut.items != [] { a := FeederReads; }
    else if !s.cut.open { a := FeederEnds; }
    else if s.source != [] { a := SlicerCuts; }
    else { a := SlicerCloses; }
  }

  lemma EncryptingMoves(cfg: Config, s: State) returns (a: Action)
    requires cfg.Valid() && Inv(cfg, s) && s.encrypted.open && s.encrypted.items == []
    ensures Enabled(cfg, s, a)
  {
    if s.encryptors.held != [] { a := EncryptorSends(0); }
    else if s.encryptors.idle == 0 { a := EncryptCloses; }
    else if s.pairs.items != [] { a := EncryptorReads; }
    else if !s.pairs.open { a := EncryptorEnds; }
    else if s.dispatcher.rest != [] { a := DispatcherSends; }
    else if s.located.items != [] { a := DispatcherReads; }
    else if !s.located.open { a := DispatcherEnds; }
    else { a := LocatingMoves(cfg, s); }
  }

  lemma {:induction false} FailuresOne(held: seq<Pushed>)
    requires held != [] && !held[0].ok
    ensures Failures(held) >= 1
  {
  }

  lemma DistributingMoves(cfg: Config, s: State) returns (a: Action)
    requires cfg.Valid() && Inv(cfg, s) && s.main.Finishing? && s.pushFailures <= FAILED_CAP
    requires s.finishedQ.open && s.finishedQ.items == []
    ensures Enabled(cfg, s, a)
  {
    if s.distributors.held != [] {
      if s.distributors.held[0].ok { a := DistributorFinishes(0); }
      else {
        FailuresOne(s.distributors.held);
        a := DistributorFails(0);
      }
    }
    else if s.distributors.idle == 0 { a := DistributeCloses; }
    else if s.encrypted.items != [] { a := DistributorReads(true); }
    else if !s.encrypted.open { a := DistributorEnds; }
    else { a := EncryptingMoves(cfg, s); }
  }

  lemma MainMoves(cfg: Config, s: State) returns (a: Action)
    requires cfg.Valid() && Inv(cfg, s) && !s.main.Ended? && s.pushFailures <= FAILED_CAP
    ensures Enabled(cfg, s, a)
  {
    match s.main
    case Finishing =>
      if s.finishedQ.items != [] { a := MainReadsFinished; }
      else if !s.finishedQ.open { a := MainTurnsToFailed; }
      else { a := DistributingMoves(cfg, s); }
    case Failing => a := if s.failedQ.items != [] then MainReadsFailed else MainRetries;
    case Retrying =>
      if s.pending != [] { a := RetryDecides(0, true); }
      else if s.retriers == [] { a := RetryCloses; }
      else { a := if s.retriers[0].ok then RetryFinishes(0) else RetryFails(0); }
    case Finishing2 => a := if s.finishedQ2.items != [] then MainReadsFinished2 else MainTurnsToFailed2;
    case Failing2 => a := if s.failedQ2.items != [] then MainReadsFailed2 else MainTurnsToOthers;
    case Relocating => a := MainRelocates(None);
  }

  /**
   A run that can go no further has reached the end of the write exactly when at most
   FAILED_CAP first pushes failed; with one more failure the distributors wait for a
   reader of failedQueue that will only come once they are gone.
   */
  lemma StuckMeansTooManyFailures(cfg: Config, path: seq<State>, acts: seq<Action>)
    requires cfg.Valid() && Run(cfg, path, acts) && Stuck(cfg, path[|acts|])
    ensures path[|acts|].main.Ended? <==> path[|acts|].pushFailures <= FAILED_CAP
  {
    RunInv(cfg, path, acts);
    var s := path[|acts|];
    assert Inv(cfg, s);
    if !s.main.Ended? && s.pushFailures <= FAILED_CAP {
      var a := MainMoves(cfg, s);
      assert false;
    }
  }
}
