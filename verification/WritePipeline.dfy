/**
 The goroutines of a file write and the bounded channels between them, as a state
 machine: one action is one receive, one send, one exit or one close.

 The workers of one stage are interchangeable, so a stage is the number of its idle
 workers and the items its busy workers are about to send. Runs are uncancelled and no
 stage but a push reports an error.
 */
module WritePipeline {
  import opened Wrappers
  import opened Copies
  import opened Sequences

  const META_CAP := 10
  const TASK_CAP := 10
  const LOCATED_CAP := 8
  const PAIR_CAP := 4
  const ENCRYPTED_CAP := 10
  const FINISHED_CAP := 10
  const FAILED_CAP := 10
  const WORKERS := 4

  /** What a write is called with: the file's slices in order, and where they may go. */
  datatype Config = Config(file: seq<SliceId>, replica: nat, nodes: seq<NodeId>, sliceCap: nat) {
    ghost predicate Valid() {
      && Distinct(file) && Distinct(nodes)
      && 0 < replica <= |nodes|
      && 0 < sliceCap
    }
  }

  datatype Chan<T> = Chan(items: seq<T>, open: bool) {
    predicate Drained() { !open && items == [] }
    function Send(x: T): Chan<T> { this.(items := items + [x]) }
    function Receive(): Chan<T> requires items != [] { this.(items := items[1..]) }
    function Close(): Chan<T> { this.(open := false) }
  }

  datatype Workers<T> = Workers(idle: nat, held: seq<T>) {
    function Present(): nat { idle + |held| }
    function Take(x: T): Workers<T> requires idle > 0 { Workers(idle - 1, held + [x]) }
    function Drop(i: nat): Workers<T> requires i < |held| { Workers(idle + 1, held[..i] + held[i + 1..]) }
    function Leave(): Workers<T> requires idle > 0 { Workers(idle - 1, held) }
  }

  datatype Feeder = Reading | HasSlice(s: SliceId) | MetaSent(s: SliceId) | FeederGone
  datatype Dispatcher = Dealing(s: SliceId, rest: seq<NodeId>) | DispatcherGone
  datatype Pushed = Pushed(copy: Copy, ok: bool)

  datatype Phase =
    | Finishing   // ranging over finishedQueue
    | Failing     // ranging over failedQueue
    | Retrying    // inside retryRoutine
    | Finishing2  // ranging over finishedQueue2
    | Failing2    // ranging over failedQueue2
    | Relocating  // inside pushToOtherNode
    | Ended(ok: bool)

  datatype State = State(
    source: seq<SliceId>, cut: Chan<SliceId>,
    feeder: Feeder, metaQ: Chan<SliceId>, metas: seq<SliceId>, tasks: Chan<SliceId>,
    locators: Workers<Located>, located: Chan<Located>,
    dispatcher: Dispatcher, pairs: Chan<Copy>, encryptors: Workers<Copy>, encrypted: Chan<Copy>,
    distributors: Workers<Pushed>, finishedQ: Chan<Copy>, failedQ: Chan<Copy>,
    main: Phase, finished: seq<Copy>, failed: seq<Copy>,
    pending: seq<Copy>, retriers: seq<Pushed>, finishedQ2: Chan<Copy>, failedQ2: Chan<Copy>,
    failedTwice: seq<Copy>,
    // history: every location chosen so far, and how many first pushes have failed
    selected: seq<Located>, pushFailures: nat)

  function Init(cfg: Config): State {
    State(cfg.file, Chan([], true),
          Reading, Chan([], true), [], Chan([], true),
          Workers(WORKERS, []), Chan([], true),
          Dealing(0, []), Chan([], true), Workers(WORKERS, []), Chan([], true),
          Workers(WORKERS, []), Chan([], true), Chan([], true),
          Finishing, [], [],
          [], [], Chan([], true), Chan([], true),
          [],
          [], 0)
  }

  datatype Action =
    | SlicerCuts | SlicerCloses
    | FeederReads | FeederSendsMeta | FeederSendsTask | FeederEnds | CollectorReads
    | LocatorReads(nodes: seq<NodeId>) | LocatorSends(i: nat) | LocatorEnds | LocateCloses
    | DispatcherReads | DispatcherSends | DispatcherEnds
    | EncryptorReads | EncryptorSends(i: nat) | EncryptorEnds | EncryptCloses
    | DistributorReads(ok: bool) | DistributorFinishes(i: nat) | DistributorFails(i: nat)
    | DistributorEnds | DistributeCloses
    | MainReadsFinished | MainTurnsToFailed | MainReadsFailed | MainRetries
    | RetryDecides(i: nat, ok: bool) | RetryFinishes(i: nat) | RetryFails(i: nat) | RetryCloses
    | MainReadsFinished2 | MainTurnsToFailed2 | MainReadsFailed2 | MainTurnsToOthers
    | MainRelocates(moved: Option<seq<Copy>>)

  predicate Enabled(cfg: Config, s: State, a: Action) {
    match a
    case SlicerCuts => s.source != [] && |s.cut.items| < cfg.sliceCap
    case SlicerCloses => s.source == [] && s.cut.open
    case FeederReads => s.feeder.Reading? && s.cut.items != []
    case FeederSendsMeta => s.feeder.HasSlice? && |s.metaQ.items| < META_CAP
    case FeederSendsTask => s.feeder.MetaSent? && |s.tasks.items| < TASK_CAP
    case FeederEnds => s.feeder.Reading? && s.cut.Drained()
    case CollectorReads => s.metaQ.items != []
    case LocatorReads(nodes) =>
      s.locators.idle > 0 && s.tasks.items != [] && Selectable(cfg.nodes, cfg.replica, nodes)
    case LocatorSends(i) => i < |s.locators.held| && |s.located.items| < LOCATED_CAP
    case LocatorEnds => s.locators.idle > 0 && s.tasks.Drained()
    case LocateCloses => s.located.open && s.feeder.FeederGone? && s.locators.Present() == 0
    case DispatcherReads => s.dispatcher.Dealing? && s.dispatcher.rest == [] && s.located.items != []
    case DispatcherSends => s.dispatcher.Dealing? && s.dispatcher.rest != [] && |s.pairs.items| < PAIR_CAP
    case DispatcherEnds => s.dispatcher.Dealing? && s.dispatcher.rest == [] && s.located.Drained()
    case EncryptorReads => s.encryptors.idle > 0 && s.pairs.items != []
    case EncryptorSends(i) => i < |s.encryptors.held| && |s.encrypted.items| < ENCRYPTED_CAP
    case EncryptorEnds => s.encryptors.idle > 0 && s.pairs.Drained()
    case EncryptCloses => s.encrypted.open && s.dispatcher.DispatcherGone? && s.encryptors.Present() == 0
    case DistributorReads(ok) => s.distributors.idle > 0 && s.encrypted.items != []
    case DistributorFinishes(i) =>
      i < |s.distributors.held| && s.distributors.held[i].ok && |s.finishedQ.items| < FINISHED_CAP
    case DistributorFails(i) =>
      i < |s.distributors.held| && !s.distributors.held[i].ok && |s.failedQ.items| < FAILED_CAP
    case DistributorEnds => s.distributors.idle > 0 && s.encrypted.Drained()
    case DistributeCloses => s.finishedQ.open && s.distributors.Present() == 0
    case MainReadsFinished => s.main.Finishing? && s.finishedQ.items != []
    case MainTurnsToFailed => s.main.Finishing? && s.finishedQ.Drained()
    case MainReadsFailed => s.main.Failing? && s.failedQ.items != []
    case MainRetries => s.main.Failing? && s.failedQ.Drained()
    case RetryDecides(i, ok) => s.main.Retrying? && i < |s.pending|
    case RetryFinishes(i) =>
      s.main.Retrying? && i < |s.retriers| && s.retriers[i].ok && |s.finishedQ2.items| < FINISHED_CAP
    case RetryFails(i) =>
      s.main.Retrying? && i < |s.retriers| && !s.retriers[i].ok && |s.failedQ2.items| < FAILED_CAP
    case RetryCloses => s.main.Retrying? && s.pending == [] && s.retriers == []
    case MainReadsFinished2 => s.main.Finishing2? && s.finishedQ2.items != []
    case MainTurnsToFailed2 => s.main.Finishing2? && s.finishedQ2.Drained()
    case MainReadsFailed2 => s.main.Failing2? && s.failedQ2.items != []
    case MainTurnsToOthers => s.main.Failing2? && s.failedQ2.Drained()
    case MainRelocates(moved) =>
      s.main.Relocating? && (moved.Some? ==> Relocated(s.failedTwice, s.finished, moved.value))
  }

  function Next(cfg: Config, s: State, a: Action): State
    requires Enabled(cfg, s, a)
  {
    match a
    case SlicerCuts => s.(source := s.source[1..], cut := s.cut.Send(s.source[0]))
    case SlicerCloses => s.(cut := s.cut.Close())
    case FeederReads => s.(feeder := HasSlice(s.cut.items[0]), cut := s.cut.Receive())
    case FeederSendsMeta => s.(feeder := MetaSent(s.feeder.s), metaQ := s.metaQ.Send(s.feeder.s))
    case FeederSendsTask => s.(feeder := Reading, tasks := s.tasks.Send(s.feeder.s))
    case FeederEnds => s.(feeder := FeederGone, tasks := s.tasks.Close())
    case CollectorReads => s.(metas := s.metas + [s.metaQ.items[0]], metaQ := s.metaQ.Receive())
    case LocatorReads(nodes) =>
      var l := Located(s.tasks.items[0], nodes);
      s.(tasks := s.tasks.Receive(), locators := s.locators.Take(l), selected := s.selected + [l])
    case LocatorSends(i) => s.(located := s.located.Send(s.locators.held[i]), locators := s.locators.Drop(i))
    case LocatorEnds => s.(locators := s.locators.Leave())
    case LocateCloses => s.(metaQ := s.metaQ.Close(), located := s.located.Close())
    case DispatcherReads =>
      var l := s.located.items[0];
      s.(dispatcher := Dealing(l.slice, l.nodes), located := s.located.Receive())
    case DispatcherSends =>
      var d := s.dispatcher;
      s.(dispatcher := Dealing(d.s, d.rest[1..]), pairs := s.pairs.Send(Copy(d.s, d.rest[0])))
    case DispatcherEnds => s.(dispatcher := DispatcherGone, pairs := s.pairs.Close())
    case EncryptorReads => s.(pairs := s.pairs.Receive(), encryptors := s.encryptors.Take(s.pairs.items[0]))
    case EncryptorSends(i) =>
      s.(encrypted := s.encrypted.Send(s.encryptors.held[i]), encryptors := s.encryptors.Drop(i))
    case EncryptorEnds => s.(encryptors := s.encryptors.Leave())
    case EncryptCloses => s.(encrypted := s.encrypted.Close())
    case DistributorReads(ok) =>
      s.(encrypted := s.encrypted.Receive(),
         distributors := s.distributors.Take(Pushed(s.encrypted.items[0], ok)),
         pushFailures := if ok then s.pushFailures else s.pushFailures + 1)
    case DistributorFinishes(i) =>
      s.(finishedQ := s.finishedQ.Send(s.distributors.held[i].copy), distributors := s.distributors.Drop(i))
    case DistributorFails(i) =>
      s.(failedQ := s.failedQ.Send(s.distributors.held[i].copy), distributors := s.distributors.Drop(i))
    case DistributorEnds => s.(distributors := s.distributors.Leave())
    case DistributeCloses => s.(finishedQ := s.finishedQ.Close(), failedQ := s.failedQ.Close())
    case MainReadsFinished =>
      s.(finished := s.finished + [s.finishedQ.items[0]], finishedQ := s.finishedQ.Receive())
    case MainTurnsToFailed => s.(main := Failing)
    case MainReadsFailed => s.(failed := s.failed + [s.failedQ.items[0]], failedQ := s.failedQ.Receive())
    case MainRetries => s.(main := Retrying, pending := s.failed, failed := [])
    case RetryDecides(i, ok) =>
      s.(pending := s.pending[..i] + s.pending[i + 1..], retriers := s.retriers + [Pushed(s.pending[i], ok)])
    case RetryFinishes(i) =>
      s.(finishedQ2 := s.finishedQ2.Send(s.retriers[i].copy), retriers := s.retriers[..i] + s.retriers[i + 1..])
    case RetryFails(i) =>
      s.(failedQ2 := s.failedQ2.Send(s.retriers[i].copy), retriers := s.retriers[..i] + s.retriers[i + 1..])
    case RetryCloses => s.(main := Finishing2, finishedQ2 := s.finishedQ2.Close(), failedQ2 := s.failedQ2.Close())
    case MainReadsFinished2 =>
      s.(finished := s.finished + [s.finishedQ2.items[0]], finishedQ2 := s.finishedQ2.Receive())
    case MainTurnsToFailed2 => s.(main := Failing2)
    case MainReadsFailed2 =>
      s.(failedTwice := s.failedTwice + [s.failedQ2.items[0]], failedQ2 := s.failedQ2.Receive())
    case MainTurnsToOthers => s.(main := Relocating)
    case MainRelocates(moved) =>
      if moved.Some? then s.(main := Ended(true), finished := s.finished + moved.value, failedTwice := [])
      else s.(main := Ended(false))
  }
}
