/**
 Nothing is lost, duplicated or misplaced between the slicer and the list of finished
 copies, whatever the interleaving and whichever pushes fail.
 */
module WriteConservation {
  import opened Wrappers
  import opened Copies
  import opened Sequences
  import opened WritePipeline
  import opened WriteProgress

  function CopiesOf(ps: seq<Pushed>): (cs: seq<Copy>)
    ensures |cs| == |ps| && forall k :: 0 <= k < |ps| ==> cs[k] == ps[k].copy
  {
    seq(|ps|, k requires 0 <= k < |ps| => ps[k].copy)
  }

  function Dealt(d: Dispatcher): seq<Copy> {
    if d.Dealing? then Pairs(d.s, d.rest) else []
  }

  function CountTo<T(==)>(q: seq<T>, n: nat, x: T): nat
    requires n <= |q|
  {
    if n == 0 then 0 else CountTo(q, n - 1, x) + if q[n - 1] == x then 1 else 0
  }

  /** How often `x` occurs in a queue. */
  function Count<T(==)>(q: seq<T>, x: T): nat { CountTo(q, |q|, x) }

  lemma {:induction false} CountToMultiset<T>(q: seq<T>, n: nat, x: T)
    requires n <= |q|
    ensures CountTo(q, n, x) == multiset(q[..n])[x]
  {
    if n > 0 {
      CountToMultiset(q, n - 1, x);
      assert q[..n] == q[..n - 1] + [q[n - 1]];
    }
  }

  lemma CountMultiset<T>(q: seq<T>, x: T)
    ensures Count(q, x) == multiset(q)[x]
  {
    CountToMultiset(q, |q|, x);
    assert q[..|q|] == q;
  }

  lemma CountConcat<T>(p: seq<T>, q: seq<T>, x: T)
    ensures Count(p + q, x) == Count(p, x) + Count(q, x)
  {
    ConcatMultiset(p, q);
    CountMultiset(p, x);
    CountMultiset(q, x);
    CountMultiset(p + q, x);
  }

  lemma CountOne<T>(y: T, x: T)
    ensures Count([y], x) == if y == x then 1 else 0
  {
    assert CountTo([y], 0, x) == 0 && [y][0] == y;
  }

  lemma CountAppend<T>(q: seq<T>, y: T, x: T)
    ensures Count(q + [y], x) == Count(q, x) + if y == x then 1 else 0
  {
    CountConcat(q, [y], x);
    CountOne(y, x);
  }

  lemma CountRemove<T>(q: seq<T>, i: nat, x: T)
    requires i < |q|
    ensures Count(q, x) == Count(q[..i] + q[i + 1..], x) + if q[i] == x then 1 else 0
  {
    OneOut(q, i);
    CountMultiset(q, x);
    CountMultiset(q[..i] + q[i + 1..], x);
  }

  lemma CountFirst<T>(q: seq<T>, x: T)
    requires q != []
    ensures Count(q, x) == Count(q[1..], x) + if q[0] == x then 1 else 0
  {
    CountRemove(q, 0, x);
    assert q[..0] + q[1..] == q[1..];
  }

  lemma {:induction false} CountFlatAppend(ls: seq<Located>, l: Located, c: Copy)
    ensures Count(Flat(ls + [l]), c) == Count(Flat(ls), c) + Count(Pairs(l.slice, l.nodes), c)
  {
    FlatAppend(ls, l);
    CountConcat(Flat(ls), Pairs(l.slice, l.nodes), c);
  }

  lemma {:induction false} CountFlatRemove(ls: seq<Located>, i: nat, c: Copy)
    requires i < |ls|
    ensures Count(Flat(ls), c)
            == Count(Flat(ls[..i] + ls[i + 1..]), c) + Count(Pairs(ls[i].slice, ls[i].nodes), c)
  {
    FlatRemove(ls, i);
    CountMultiset(Flat(ls), c);
    CountMultiset(Flat(ls[..i] + ls[i + 1..]), c);
    CountMultiset(Pairs(ls[i].slice, ls[i].nodes), c);
  }

  lemma {:induction false} CountFlatFirst(ls: seq<Located>, c: Copy)
    requires ls != []
    ensures Count(Flat(ls), c) == Count(Flat(ls[1..]), c) + Count(Pairs(ls[0].slice, ls[0].nodes), c)
  {
    CountFlatRemove(ls, 0, c);
    assert ls[..0] + ls[1..] == ls[1..];
  }

  lemma CountPushedAppend(ps: seq<Pushed>, p: Pushed, c: Copy)
    ensures Count(CopiesOf(ps + [p]), c) == Count(CopiesOf(ps), c) + if p.copy == c then 1 else 0
  {
    assert CopiesOf(ps + [p]) == CopiesOf(ps) + [p.copy];
    CountAppend(CopiesOf(ps), p.copy, c);
  }

  lemma CountPushedRemove(ps: seq<Pushed>, i: nat, c: Copy)
    requires i < |ps|
    ensures Count(CopiesOf(ps), c)
            == Count(CopiesOf(ps[..i] + ps[i + 1..]), c) + if ps[i].copy == c then 1 else 0
  {
    CountRemove(CopiesOf(ps), i, c);
    assert CopiesOf(ps)[..i] + CopiesOf(ps)[i + 1..] == CopiesOf(ps[..i] + ps[i + 1..]);
  }

  /** Occurrences of a copy that is located but not yet handed to a distributor. */
  function Before(s: State, c: Copy): nat {
    Count(Flat(s.locators.held), c) + Count(Flat(s.located.items), c) + Count(Dealt(s.dispatcher), c)
    + Count(s.pairs.items, c) + Count(s.encryptors.held, c) + Count(s.encrypted.items, c)
  }

  /** Occurrences of a copy that a distributor has taken. */
  function After(s: State, c: Copy): nat {
    Count(CopiesOf(s.distributors.held), c) + Count(s.finishedQ.items, c) + Count(s.failedQ.items, c)
    + Count(s.finished, c) + Count(s.failed, c) + Count(s.pending, c) + Count(CopiesOf(s.retriers), c)
    + Count(s.finishedQ2.items, c) + Count(s.failedQ2.items, c) + Count(s.failedTwice, c)
  }

  function Feeding(f: Feeder): seq<SliceId> {
    if f.HasSlice? || f.MetaSent? then [f.s] else []
  }

  /** Occurrences of a slice that no locator has taken. */
  function Unlocated(s: State, x: SliceId): nat {
    Count(s.tasks.items, x) + Count(Feeding(s.feeder), x) + Count(s.cut.items, x) + Count(s.source, x)
  }

  function Unrecorded(s: State): seq<SliceId> {
    s.metaQ.items + (if s.feeder.HasSlice? then [s.feeder.s] else []) + s.cut.items + s.source
  }

  ghost predicate CopiesConserved(s: State) {
    forall c :: Before(s, c) + After(s, c) == Count(Flat(s.selected), c)
  }

  ghost predicate Conserved(cfg: Config, s: State) {
    && s.metas + Unrecorded(s) == cfg.file
    && (forall x :: Count(SlicesOf(s.selected), x) + Unlocated(s, x) == Count(cfg.file, x))
    && (forall l :: l in s.selected ==> |l.nodes| == cfg.replica && Distinct(l.nodes))
    && (s.main != Ended(true) ==> CopiesConserved(s))
    && (s.main == Ended(true) ==> Placed(s.finished, cfg.file, cfg.replica))
  }

  lemma InitConserved(cfg: Config)
    ensures Conserved(cfg, Init(cfg))
  {
  }

  // ---------------------------------------------------------------- one step

  lemma StepMetas(cfg: Config, s: State, a: Action)
    requires Enabled(cfg, s, a)
    ensures Next(cfg, s, a).metas + Unrecorded(Next(cfg, s, a)) == s.metas + Unrecorded(s)
  {
    var t := Next(cfg, s, a);
    match a
    case SlicerCuts =>
    case FeederReads =>
    case FeederSendsMeta =>
    case CollectorReads =>
    case _ => assert t.metas == s.metas && Unrecorded(t) == Unrecorded(s);
  }

  lemma StepSlices(cfg: Config, s: State, a: Action, x: SliceId)
    requires Enabled(cfg, s, a)
    ensures var t := Next(cfg, s, a);
            Count(SlicesOf(t.selected), x) + Unlocated(t, x) == Count(SlicesOf(s.selected), x) + Unlocated(s, x)
  {
    match a
    case LocatorReads(nodes) =>
      FlatAppend(s.selected, Located(s.tasks.items[0], nodes));
      CountAppend(SlicesOf(s.selected), s.tasks.items[0], x);
      CountFirst(s.tasks.items, x);
    case SlicerCuts =>
      CountFirst(s.source, x);
      CountAppend(s.cut.items, s.source[0], x);
    case FeederReads =>
      CountFirst(s.cut.items, x);
      CountOne(s.cut.items[0], x);
    case FeederSendsTask =>
      CountAppend(s.tasks.items, s.feeder.s, x);
      CountOne(s.feeder.s, x);
    case _ =>
  }

  lemma StepSelected(cfg: Config, s: State, a: Action)
    requires Enabled(cfg, s, a)
    requires forall l :: l in s.selected ==> |l.nodes| == cfg.replica && Distinct(l.nodes)
    ensures forall l :: l in Next(cfg, s, a).selected ==> |l.nodes| == cfg.replica && Distinct(l.nodes)
  {
  }

  lemma LocatingConserves(cfg: Config, s: State, a: Action, c: Copy)
    requires Enabled(cfg, s, a) && Locating(a)
    ensures After(Next(cfg, s, a), c) == After(s, c)
    ensures Before(Next(cfg, s, a), c) - Before(s, c)
            == Count(Flat(Next(cfg, s, a).selected), c) - Count(Flat(s.selected), c)
  {
    match a
    case LocatorReads(nodes) =>
      var l := Located(s.tasks.items[0], nodes);
      CountFlatAppend(s.selected, l, c);
      CountFlatAppend(s.locators.held, l, c);
    case LocatorSends(i) =>
      CountFlatRemove(s.locators.held, i, c);
      CountFlatAppend(s.located.items, s.locators.held[i], c);
    case _ =>
  }

  lemma EncryptingConserves(cfg: Config, s: State, a: Action, c: Copy)
    requires Enabled(cfg, s, a) && Encrypting(a)
    ensures After(Next(cfg, s, a), c) == After(s, c) && Before(Next(cfg, s, a), c) == Before(s, c)
  {
    match a
    case DispatcherReads => CountFlatFirst(s.located.items, c);
    case DispatcherSends =>
      var first := Copy(s.dispatcher.s, s.dispatcher.rest[0]);
      assert Dealt(s.dispatcher)[1..] == Dealt(Next(cfg, s, a).dispatcher);
      CountFirst(Dealt(s.dispatcher), c);
      CountAppend(s.pairs.items, first, c);
    case EncryptorReads =>
      CountFirst(s.pairs.items, c);
      CountAppend(s.encryptors.held, s.pairs.items[0], c);
    case EncryptorSends(i) =>
      CountRemove(s.encryptors.held, i, c);
      CountAppend(s.encrypted.items, s.encryptors.held[i], c);
    case _ =>
  }

  lemma DistributingConserves(cfg: Config, s: State, a: Action, c: Copy)
    requires Enabled(cfg, s, a) && Distributing(a)
    ensures Before(Next(cfg, s, a), c) + After(Next(cfg, s, a), c) == Before(s, c) + After(s, c)
  {
    match a
    case DistributorReads(ok) =>
      CountFirst(s.encrypted.items, c);
      CountPushedAppend(s.distributors.held, Pushed(s.encrypted.items[0], ok), c);
    case _ => PushedConserves(cfg, s, a, c);
  }

  lemma PushedConserves(cfg: Config, s: State, a: Action, c: Copy)
    requires Enabled(cfg, s, a) && Distributing(a) && !a.DistributorReads?
    ensures Before(Next(cfg, s, a), c) == Before(s, c) && After(Next(cfg, s, a), c) == After(s, c)
  {
    match a
    case DistributorFinishes(i) =>
      CountPushedRemove(s.distributors.held, i, c);
      CountAppend(s.finishedQ.items, s.distributors.held[i].copy, c);
    case DistributorFails(i) => RefusedConserves(cfg, s, i, c);
    case _ =>
  }

  lemma RefusedConserves(cfg: Config, s: State, i: nat, c: Copy)
    requires Enabled(cfg, s, DistributorFails(i))
    ensures Before(Next(cfg, s, DistributorFails(i)), c) == Before(s, c)
    ensures After(Next(cfg, s, DistributorFails(i)), c) == After(s, c)
  {
    CountPushedRemove(s.distributors.held, i, c);
    CountAppend(s.failedQ.items, s.distributors.held[i].copy, c);
  }

  predicate ReadAction(a: Action) {
    a.MainReadsFinished? || a.MainReadsFailed? || a.MainReadsFinished2? || a.MainReadsFailed2?
  }

  lemma ReadingConserves(cfg: Config, s: State, a: Action, c: Copy)
    requires Enabled(cfg, s, a) && ReadAction(a)
    ensures After(Next(cfg, s, a), c) == After(s, c)
  {
    match a
    case MainReadsFinished =>
      CountFirst(s.finishedQ.items, c);
      CountAppend(s.finished, s.finishedQ.items[0], c);
    case MainReadsFailed =>
      CountFirst(s.failedQ.items, c);
      CountAppend(s.failed, s.failedQ.items[0], c);
    case _ => Reading2Conserves(cfg, s, a, c);
  }

  lemma Reading2Conserves(cfg: Config, s: State, a: Action, c: Copy)
    requires Enabled(cfg, s, a) && (a.MainReadsFinished2? || a.MainReadsFailed2?)
    ensures After(Next(cfg, s, a), c) == After(s, c)
  {
    match a
    case MainReadsFinished2 =>
      CountFirst(s.finishedQ2.items, c);
      CountAppend(s.finished, s.finishedQ2.items[0], c);
    case MainReadsFailed2 =>
      CountFirst(s.failedQ2.items, c);
      CountAppend(s.failedTwice, s.failedQ2.items[0], c);
  }

  lemma RetryingConserves(cfg: Config, s: State, a: Action, c: Copy)
    requires Enabled(cfg, s, a) && RetryAction(a)
    ensures After(Next(cfg, s, a), c) == After(s, c)
  {
    match a
    case RetryDecides(i, ok) =>
      CountRemove(s.pending, i, c);
      CountPushedAppend(s.retriers, Pushed(s.pending[i], ok), c);
    case _ => RetriedConserves(cfg, s, a, c);
  }

  lemma RetriedConserves(cfg: Config, s: State, a: Action, c: Copy)
    requires Enabled(cfg, s, a) && (a.RetryFinishes? || a.RetryFails?)
    ensures After(Next(cfg, s, a), c) == After(s, c)
  {
    match a
    case RetryFinishes(i) =>
      CountPushedRemove(s.retriers, i, c);
      CountAppend(s.finishedQ2.items, s.retriers[i].copy, c);
    case RetryFails(i) =>
      CountPushedRemove(s.retriers, i, c);
      CountAppend(s.failedQ2.items, s.retriers[i].copy, c);
  }

  lemma TurningConserves(cfg: Config, s: State, a: Action, c: Copy)
    requires Inv(cfg, s) && Enabled(cfg, s, a)
    requires Main(a) && !ReadAction(a) && !RetryAction(a) && !a.MainRelocates?
    ensures After(Next(cfg, s, a), c) == After(s, c)
  {
  }

  /** When the main goroutine starts moving copies elsewhere every queue behind it is empty. */
  lemma RelocatingIsAlone(cfg: Config, s: State)
    requires Inv(cfg, s) && s.main.Relocating?
    ensures forall x :: Unlocated(s, x) == 0
    ensures forall c :: Before(s, c) + After(s, c) == Count(s.finished, c) + Count(s.failedTwice, c)
  {
    assert s.distributors.held == [] && s.encrypted.items == [] && s.encryptors.held == [];
    assert s.pairs.items == [] && s.located.items == [] && s.locators.held == [];
    assert Dealt(s.dispatcher) == [] && CopiesOf(s.distributors.held) == [] && CopiesOf(s.retriers) == [];
    assert Feeding(s.feeder) == [] && s.tasks.items == [];
  }

  lemma CountsAreMultiset<T(!new)>(a: seq<T>, m: multiset<T>)
    requires forall x :: Count(a, x) == m[x]
    ensures multiset(a) == m
  {
    forall x ensures multiset(a)[x] == m[x] {
      assert Count(a, x) == m[x];
      CountMultiset(a, x);
    }
  }

  lemma RelocatingConserves(cfg: Config, s: State, moved: seq<Copy>)
    requires cfg.Valid() && Inv(cfg, s) && Conserved(cfg, s) && Enabled(cfg, s, MainRelocates(Some(moved)))
    ensures Placed(s.finished + moved, cfg.file, cfg.replica)
  {
    RelocatingIsAlone(cfg, s);
    forall x ensures Count(SlicesOf(s.selected), x) == multiset(cfg.file)[x] {
      assert Unlocated(s, x) == 0;
      CountMultiset(cfg.file, x);
    }
    CountsAreMultiset(SlicesOf(s.selected), multiset(cfg.file));
    forall c ensures Count(Flat(s.selected), c) == (multiset(s.finished) + multiset(s.failedTwice))[c] {
      CountMultiset(s.finished, c);
      CountMultiset(s.failedTwice, c);
      assert Before(s, c) + After(s, c) == Count(s.finished, c) + Count(s.failedTwice, c);
    }
    CountsAreMultiset(Flat(s.selected), multiset(s.finished) + multiset(s.failedTwice));
    MovedPlacement(cfg.file, cfg.replica, s.selected, s.finished, s.failedTwice, moved);
  }

  lemma MainConserves(cfg: Config, s: State, a: Action, c: Copy)
    requires Inv(cfg, s) && Enabled(cfg, s, a) && Main(a) && !a.MainRelocates?
    ensures Before(Next(cfg, s, a), c) == Before(s, c) && After(Next(cfg, s, a), c) == After(s, c)
    ensures Next(cfg, s, a).selected == s.selected
  {
    if ReadAction(a) { ReadingConserves(cfg, s, a, c); }
    else if RetryAction(a) { RetryingConserves(cfg, s, a, c); }
    else { TurningConserves(cfg, s, a, c); }
  }

  lemma StepCopies(cfg: Config, s: State, a: Action, c: Copy)
    requires Inv(cfg, s) && Enabled(cfg, s, a) && !a.MainRelocates? && !Locating(a)
    ensures Before(Next(cfg, s, a), c) + After(Next(cfg, s, a), c) == Before(s, c) + After(s, c)
    ensures Next(cfg, s, a).selected == s.selected
  {
    if Encrypting(a) { EncryptingConserves(cfg, s, a, c); }
    else if Distributing(a) { DistributingConserves(cfg, s, a, c); }
    else { MainConserves(cfg, s, a, c); }
  }

  lemma StepAllCopies(cfg: Config, s: State, a: Action)
    requires Inv(cfg, s) && Enabled(cfg, s, a) && !a.MainRelocates? && CopiesConserved(s)
    ensures CopiesConserved(Next(cfg, s, a))
  {
    var t := Next(cfg, s, a);
    forall c ensures Before(t, c) + After(t, c) == Count(Flat(t.selected), c) {
      assert Before(s, c) + After(s, c) == Count(Flat(s.selected), c);
      if Locating(a) { LocatingConserves(cfg, s, a, c); } else { StepCopies(cfg, s, a, c); }
    }
  }

  lemma OnlyRelocatingEnds(cfg: Config, s: State, a: Action)
    requires Enabled(cfg, s, a) && !a.MainRelocates?
    ensures Next(cfg, s, a).main == Ended(true) <==> s.main == Ended(true)
  {
  }

  lemma NothingFinishesLater(cfg: Config, s: State, a: Action)
    requires Enabled(cfg, s, a) && s.main == Ended(true)
    ensures Next(cfg, s, a).finished == s.finished && !a.MainRelocates?
  {
  }

  lemma StepPlaced(cfg: Config, s: State, a: Action)
    requires cfg.Valid() && Inv(cfg, s) && Conserved(cfg, s) && Enabled(cfg, s, a)
    ensures Next(cfg, s, a).main != Ended(true) ==> CopiesConserved(Next(cfg, s, a))
    ensures Next(cfg, s, a).main == Ended(true) ==> Placed(Next(cfg, s, a).finished, cfg.file, cfg.replica)
  {
    if s.main == Ended(true) {
      NothingFinishesLater(cfg, s, a);
      OnlyRelocatingEnds(cfg, s, a);
    } else if a.MainRelocates? {
      if a.moved.Some? { RelocatingConserves(cfg, s, a.moved.value); } else { UnmovedCopies(s, Next(cfg, s, a)); }
    } else {
      OnlyRelocatingEnds(cfg, s, a);
      StepAllCopies(cfg, s, a);
    }
  }

  lemma StepConserved(cfg: Config, s: State, a: Action)
    requires cfg.Valid() && Inv(cfg, s) && Conserved(cfg, s) && Enabled(cfg, s, a)
    ensures Conserved(cfg, Next(cfg, s, a))
  {
    var t := Next(cfg, s, a);
    StepMetas(cfg, s, a);
    StepSelected(cfg, s, a);
    StepPlaced(cfg, s, a);
    forall x ensures Count(SlicesOf(t.selected), x) + Unlocated(t, x) == Count(cfg.file, x) {
      StepSlices(cfg, s, a, x);
    }
  }

  lemma UnmovedCopies(s: State, t: State)
    requires t == s.(main := t.main) && CopiesConserved(s)
    ensures CopiesConserved(t)
  {
    forall c ensures Before(t, c) + After(t, c) == Count(Flat(t.selected), c) {
      assert Before(t, c) == Before(s, c) && After(t, c) == After(s, c);
    }
  }

  lemma {:induction false} RunConserved(cfg: Config, path: seq<State>, acts: seq<Action>, n: nat)
    requires cfg.Valid() && Run(cfg, path, acts) && n < |path|
    ensures Conserved(cfg, path[n])
  {
    RunInv(cfg, path, acts);
    if n == 0 {
      InitConserved(cfg);
    } else {
      RunConserved(cfg, path, acts, n - 1);
      assert Inv(cfg, path[n - 1]);
      StepConserved(cfg, path[n - 1], acts[n - 1]);
    }
  }

  /**
   After any error-free write every slice is on exactly `replica` different nodes, and the
   slice metas that name the file's structure are in the order of the file.
   */
  lemma WritePlacesEverySlice(cfg: Config, path: seq<State>, acts: seq<Action>)
    requires cfg.Valid() && Run(cfg, path, acts) && path[|acts|].main == Ended(true)
    ensures Placed(path[|acts|].finished, cfg.file, cfg.replica)
    ensures path[|acts|].metas + path[|acts|].metaQ.items == cfg.file
  {
    RunConserved(cfg, path, acts, |acts|);
    RunInv(cfg, path, acts);
    var s := path[|acts|];
    assert Inv(cfg, s);
    EndedIsAlone(cfg, s);
  }

  lemma EndedIsAlone(cfg: Config, s: State)
    requires Inv(cfg, s) && s.main.Ended?
    ensures Unrecorded(s) == s.metaQ.items
  {
    assert s.encrypted.Drained() && s.pairs.Drained() && s.located.Drained();
    assert s.feeder.FeederGone?;
  }

  // ---------------------------------------------------------------- nodes that were offered

  /** Every location chosen is `replica` different nodes of those offered. */
  lemma {:induction false} LocationsOffered(cfg: Config, path: seq<State>, acts: seq<Action>, n: nat)
    requires cfg.Valid() && Run(cfg, path, acts) && n < |path|
    ensures forall l :: l in path[n].selected ==>
              |l.nodes| == cfg.replica && Distinct(l.nodes) && forall m :: m in l.nodes ==> m in cfg.nodes
    decreases n
  {
    if n > 0 {
      LocationsOffered(cfg, path, acts, n - 1);
      var s, a := path[n - 1], acts[n - 1];
      assert path[n] == Next(cfg, s, a);
      assert a.LocatorReads? ==> Next(cfg, s, a).selected == s.selected + [Located(s.tasks.items[0], a.nodes)];
    }
  }

  /** In every run: until its last action a finished copy is on a node that was offered for its slice. */
  lemma FinishedOffered(cfg: Config, path: seq<State>, acts: seq<Action>, n: nat, c: Copy)
    requires cfg.Valid() && Run(cfg, path, acts) && n < |path|
    requires path[n].main != Ended(true) && c in path[n].finished
    ensures exists l :: l in path[n].selected && l.slice == c.slice && c.node in l.nodes
    ensures c.node in cfg.nodes
  {
    RunConserved(cfg, path, acts, n);
    var s := path[n];
    CountMultiset(s.finished, c);
    assert multiset(s.finished)[c] > 0;
    assert Count(Flat(s.selected), c) > 0 by { assert Before(s, c) + After(s, c) == Count(Flat(s.selected), c); }
    CountMultiset(Flat(s.selected), c);
    assert c in multiset(Flat(s.selected));
    InFlat(s.selected, c);
    LocationsOffered(cfg, path, acts, n);
  }
}
