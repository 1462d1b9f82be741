/**
 The run in which a write stands still: eleven slices on one node each, every first push of
 which fails.
 */
module WriteStandstill {
  import opened Wrappers
  import opened Copies
  import opened Sequences
  import opened WritePipeline
  import opened WriteProgress

  /** As many slices as failedQueue holds, and one more. */
  ghost predicate OneTooMany(cfg: Config) {
    cfg.Valid() && cfg.replica == 1 && |cfg.file| == FAILED_CAP + 1
  }

  function NodesChosen(cfg: Config): seq<NodeId>
    requires cfg.nodes != []
  {
    [cfg.nodes[0]]
  }

  function LocatedSlice(cfg: Config, k: nat): Located
    requires cfg.nodes != [] && k < |cfg.file|
  {
    Located(cfg.file[k], NodesChosen(cfg))
  }

  function LocatedSlices(cfg: Config, k: nat): seq<Located>
    requires cfg.nodes != [] && k <= |cfg.file|
  {
    if k == 0 then [] else LocatedSlices(cfg, k - 1) + [LocatedSlice(cfg, k - 1)]
  }

  function OneCopy(cfg: Config, k: nat): Copy
    requires cfg.nodes != [] && k < |cfg.file|
  {
    Copy(cfg.file[k], cfg.nodes[0])
  }

  function FailedCopies(cfg: Config, k: nat): (cs: seq<Copy>)
    requires cfg.nodes != [] && k <= |cfg.file|
    ensures |cs| == k
  {
    if k == 0 then [] else FailedCopies(cfg, k - 1) + [OneCopy(cfg, k - 1)]
  }

  /** The state after the first `k` slices have gone through and failed, the rest being still uncut. */
  function Failed(cfg: Config, k: nat): State
    requires cfg.nodes != [] && k <= |cfg.file|
  {
    Init(cfg).(source := cfg.file[k..], metas := cfg.file[..k],
               dispatcher := Dealing(if k == 0 then 0 else cfg.file[k - 1], []),
               failedQ := Chan(FailedCopies(cfg, k), true),
               selected := LocatedSlices(cfg, k), pushFailures := k)
  }

  /** Up to where the copy of slice `k` is held by a distributor whose push has failed. */
  function Held(cfg: Config, k: nat): State
    requires cfg.nodes != [] && k < |cfg.file|
  {
    Failed(cfg, k).(source := cfg.file[k + 1..], metas := cfg.file[..k + 1],
                    dispatcher := Dealing(cfg.file[k], []),
                    distributors := Workers(WORKERS - 1, [Pushed(OneCopy(cfg, k), false)]),
                    selected := LocatedSlices(cfg, k + 1), pushFailures := k + 1)
  }

  lemma Extend(cfg: Config, path: seq<State>, acts: seq<Action>, a: Action, t: State)
    returns (path': seq<State>, acts': seq<Action>)
    requires Run(cfg, path, acts) && Enabled(cfg, path[|acts|], a) && Next(cfg, path[|acts|], a) == t
    ensures Run(cfg, path', acts') && path'[|acts'|] == t
  {
    path', acts' := path + [t], acts + [a];
  }

  lemma Single<T>(x: T)
    ensures [] + [x] == [x] && [x][1..] == [] && [x][..0] + [x][1..] == []
  {
  }

  /** From the slicer to the locators. */
  lemma Locate(cfg: Config, k: nat, path: seq<State>, acts: seq<Action>)
    returns (path': seq<State>, acts': seq<Action>)
    requires OneTooMany(cfg) && k < |cfg.file| && Run(cfg, path, acts) && path[|acts|] == Failed(cfg, k)
    ensures Run(cfg, path', acts')
    ensures path'[|acts'|] == Failed(cfg, k).(source := cfg.file[k + 1..], metas := cfg.file[..k + 1],
                                              located := Chan([LocatedSlice(cfg, k)], true),
                                              selected := LocatedSlices(cfg, k + 1))
  {
    var x, l := cfg.file[k], LocatedSlice(cfg, k);
    Single(x);
    Single(l);
    var s := Failed(cfg, k);
    assert cfg.file[k..][0] == x && cfg.file[k..][1..] == cfg.file[k + 1..];
    assert cfg.file[..k] + [x] == cfg.file[..k + 1];
    path', acts' := path, acts;
    s := s.(source := cfg.file[k + 1..], cut := Chan([x], true));
    path', acts' := Extend(cfg, path', acts', SlicerCuts, s);
    s := s.(cut := Chan([], true), feeder := HasSlice(x));
    path', acts' := Extend(cfg, path', acts', FeederReads, s);
    s := s.(feeder := MetaSent(x), metaQ := Chan([x], true));
    path', acts' := Extend(cfg, path', acts', FeederSendsMeta, s);
    s := s.(feeder := Reading, tasks := Chan([x], true));
    path', acts' := Extend(cfg, path', acts', FeederSendsTask, s);
    s := s.(metas := cfg.file[..k + 1], metaQ := Chan([], true));
    path', acts' := Extend(cfg, path', acts', CollectorReads, s);
    s := s.(tasks := Chan([], true), locators := Workers(WORKERS - 1, [l]), selected := LocatedSlices(cfg, k + 1));
    path', acts' := Extend(cfg, path', acts', LocatorReads(NodesChosen(cfg)), s);
    s := s.(locators := Workers(WORKERS, []), located := Chan([l], true));
    path', acts' := Extend(cfg, path', acts', LocatorSends(0), s);
  }

  /** From the dispatcher to a failed push. */
  lemma Hold(cfg: Config, k: nat, path: seq<State>, acts: seq<Action>)
    returns (path': seq<State>, acts': seq<Action>)
    requires OneTooMany(cfg) && k < |cfg.file| && Run(cfg, path, acts) && path[|acts|] == Failed(cfg, k)
    ensures Run(cfg, path', acts') && path'[|acts'|] == Held(cfg, k)
  {
    var x, l, c := cfg.file[k], LocatedSlice(cfg, k), OneCopy(cfg, k);
    Single(l);
    Single(c);
    Single(cfg.nodes[0]);
    Single(Pushed(c, false));
    path', acts' := Locate(cfg, k, path, acts);
    var s := path'[|acts'|];
    s := s.(dispatcher := Dealing(x, NodesChosen(cfg)), located := Chan([], true));
    path', acts' := Extend(cfg, path', acts', DispatcherReads, s);
    s := s.(dispatcher := Dealing(x, []), pairs := Chan([c], true));
    path', acts' := Extend(cfg, path', acts', DispatcherSends, s);
    s := s.(pairs := Chan([], true), encryptors := Workers(WORKERS - 1, [c]));
    path', acts' := Extend(cfg, path', acts', EncryptorReads, s);
    s := s.(encryptors := Workers(WORKERS, []), encrypted := Chan([c], true));
    path', acts' := Extend(cfg, path', acts', EncryptorSends(0), s);
    s := s.(encrypted := Chan([], true), distributors := Workers(WORKERS - 1, [Pushed(c, false)]),
            pushFailures := k + 1);
    path', acts' := Extend(cfg, path', acts', DistributorReads(false), s);
  }

  /** The first ten failures fit into failedQueue. */
  lemma {:induction false} Fail(cfg: Config, k: nat) returns (path: seq<State>, acts: seq<Action>)
    requires OneTooMany(cfg) && k <= FAILED_CAP
    ensures Run(cfg, path, acts) && path[|acts|] == Failed(cfg, k)
    decreases k
  {
    if k == 0 {
      path, acts := [Init(cfg)], [];
      assert cfg.file[0..] == cfg.file && cfg.file[..0] == [];
    } else {
      path, acts := Fail(cfg, k - 1);
      path, acts := Hold(cfg, k - 1, path, acts);
      Single(Pushed(OneCopy(cfg, k - 1), false));
      path, acts := Extend(cfg, path, acts, DistributorFails(0), Failed(cfg, k));
    }
  }

  /** Everyone who has nothing more to do has left, up to and including the dispatcher. */
  function Drained(cfg: Config): State
    requires OneTooMany(cfg)
  {
    Held(cfg, FAILED_CAP).(cut := Chan([], false), feeder := FeederGone, tasks := Chan([], false),
                           locators := Workers(0, []), metaQ := Chan([], false), located := Chan([], false),
                           dispatcher := DispatcherGone, pairs := Chan([], false))
  }

  /** All but the one distributor that waits for room in failedQueue. */
  function Standing(cfg: Config): State
    requires OneTooMany(cfg)
  {
    Drained(cfg).(encryptors := Workers(0, []), encrypted := Chan([], false),
                  distributors := Workers(0, [Pushed(OneCopy(cfg, FAILED_CAP), false)]))
  }

  lemma Drain(cfg: Config) returns (path: seq<State>, acts: seq<Action>)
    requires OneTooMany(cfg)
    ensures Run(cfg, path, acts) && path[|acts|] == Drained(cfg)
  {
    path, acts := Fail(cfg, FAILED_CAP);
    path, acts := Hold(cfg, FAILED_CAP, path, acts);
    var s := Held(cfg, FAILED_CAP);
    s := s.(cut := Chan([], false));
    path, acts := Extend(cfg, path, acts, SlicerCloses, s);
    s := s.(feeder := FeederGone, tasks := Chan([], false));
    path, acts := Extend(cfg, path, acts, FeederEnds, s);
    for i := 0 to WORKERS
      invariant Run(cfg, path, acts) && path[|acts|] == s.(locators := Workers(WORKERS - i, []))
    {
      path, acts := Extend(cfg, path, acts, LocatorEnds, s.(locators := Workers(WORKERS - i - 1, [])));
    }
    s := s.(locators := Workers(0, []), metaQ := Chan([], false), located := Chan([], false));
    path, acts := Extend(cfg, path, acts, LocateCloses, s);
    s := s.(dispatcher := DispatcherGone, pairs := Chan([], false));
    path, acts := Extend(cfg, path, acts, DispatcherEnds, s);
  }

  lemma Stand(cfg: Config) returns (path: seq<State>, acts: seq<Action>)
    requires OneTooMany(cfg)
    ensures Run(cfg, path, acts) && path[|acts|] == Standing(cfg)
  {
    path, acts := Drain(cfg);
    var s := Drained(cfg);
    for i := 0 to WORKERS
      invariant Run(cfg, path, acts) && path[|acts|] == s.(encryptors := Workers(WORKERS - i, []))
    {
      path, acts := Extend(cfg, path, acts, EncryptorEnds, s.(encryptors := Workers(WORKERS - i - 1, [])));
    }
    s := s.(encryptors := Workers(0, []), encrypted := Chan([], false));
    path, acts := Extend(cfg, path, acts, EncryptCloses, s);
    var held := [Pushed(OneCopy(cfg, FAILED_CAP), false)];
    for i := 0 to WORKERS - 1
      invariant Run(cfg, path, acts) && path[|acts|] == s.(distributors := Workers(WORKERS - 1 - i, held))
    {
      path, acts := Extend(cfg, path, acts, DistributorEnds, s.(distributors := Workers(WORKERS - 1 - i - 1, held)));
    }
  }

  /** The eleventh failed first push stands still for good: nobody can do anything, and the write still
      waits for finished copies. */
  lemma StandsStill(cfg: Config) returns (path: seq<State>, acts: seq<Action>)
    requires OneTooMany(cfg)
    ensures Run(cfg, path, acts) && Stuck(cfg, path[|acts|])
    ensures path[|acts|].main.Finishing? && path[|acts|].pushFailures == FAILED_CAP + 1
  {
    path, acts := Stand(cfg);
    var s := Standing(cfg);
    assert s.source == [] by { assert cfg.file[FAILED_CAP + 1..] == []; }
    assert |s.failedQ.items| == FAILED_CAP;
    forall a ensures !Enabled(cfg, s, a) {}
  }
}
