/**
 The life of a file and its challenge material: published with the material of its first span, and
 extended again and again. An extension lengthens the life on the chain first; the material of the
 new span then follows, for each copy of each slice, if its node can be reached and every step works.
 */
module FileLife {
  import opened Wrappers
  import opened Challenge

  // ---------------------------------------------------------------- one attempt for one copy

  /** How generating and pushing goes this time: whether the node is listed as online, which rounds
      can be calculated, and whether the push goes through. */
  datatype Generation = Generation(online: bool, calculates: int -> bool, pushes: bool)

  /** How extending the material of a copy goes: it is pulled first, then the nodes are listed again. */
  datatype Attempt = Attempt(online: bool, pullsSlice: bool, pullsSigmas: bool, listed: bool, generation: Generation)

  /** A request to extend the life of a file, and how it goes: whether the chain takes it, whether the
      nodes can be listed, and the attempt for each copy. */
  datatype Extension = Extension(current: nat, newExpire: nat, chainTakes: bool, listed: bool, attempts: seq<Attempt>)

  ghost predicate Calculable(g: Generation, p: Period, interval: nat)
    requires interval > 0
  {
    forall r :: InRounds(p, interval, r) ==> g.calculates(r)
  }

  ghost predicate Generates(g: Generation, p: Period, interval: nat)
    requires interval > 0
  {
    g.online && Calculable(g, p, interval) && g.pushes
  }

  ghost predicate Succeeds(a: Attempt, p: Period, interval: nat)
    requires interval > 0
  {
    a.online && a.pullsSlice && a.pullsSigmas && a.listed && Generates(a.generation, p, interval)
  }

  /** The first step that fails has that error. */
  ghost predicate ExplainsGeneration(err: ChallengeError, g: Generation, p: Period, interval: nat)
    requires interval > 0
  {
    match err
    case AbnormalNode => !g.online
    case NoSigma => g.online && !Calculable(g, p, interval)
    case NotPushed => g.online && Calculable(g, p, interval) && !g.pushes
    case _ => false
  }

  ghost predicate Explains(err: ChallengeError, a: Attempt, p: Period, interval: nat)
    requires interval > 0
  {
    if !a.online then err == AbnormalNode
    else if !a.pullsSlice || !a.pullsSigmas then err == NotPulled
    else if !a.listed then err == NoNodes
    else ExplainsGeneration(err, a.generation, p, interval)
  }

  /** `after` is the old material with the sigmas of all rounds of the span. */
  ghost predicate Added(after: map<int, Sigma>, before: map<int, Sigma>, sigma: int -> Sigma, p: Period, interval: nat)
    requires interval > 0
  {
    && (forall r :: r in after <==> r in before || InRounds(p, interval, r))
    && (forall r :: r in after ==> after[r] == if InRounds(p, interval, r) then sigma(r) else before[r])
  }

  method AddSlice(g: Generation, p: Period, interval: nat, sigma: int -> Sigma, existing: map<int, Sigma>)
    returns (r: Result<map<int, Sigma>, ChallengeError>)
    requires interval > 0
    ensures r.Success? <==> Generates(g, p, interval)
    ensures r.Success? ==> Added(r.value, existing, sigma, p, interval)
    ensures r.Failure? ==> ExplainsGeneration(r.error, g, p, interval)
  {
    if !g.online { return Failure(AbnormalNode); }
    var sign := i => if g.calculates(i) then Some(sigma(i)) else None;
    var generated := GenerateSigmas(p.start, p.end, interval, existing, sign);
    assert Calculable(g, p, interval) <==> forall i :: InRounds(p, interval, i) ==> sign(i).Some?;
    if generated.Failure? { return generated; }
    if !g.pushes { return Failure(NotPushed); }
    return generated;
  }

  method ExtendCopy(a: Attempt, p: Period, interval: nat, sigma: int -> Sigma, existing: map<int, Sigma>)
    returns (r: Result<map<int, Sigma>, ChallengeError>)
    requires interval > 0
    ensures r.Success? <==> Succeeds(a, p, interval)
    ensures r.Success? ==> Added(r.value, existing, sigma, p, interval)
    ensures r.Failure? ==> Explains(r.error, a, p, interval)
  {
    if !a.online { return Failure(AbnormalNode); }
    if !a.pullsSlice || !a.pullsSigmas { return Failure(NotPulled); }
    if !a.listed { return Failure(NoNodes); }
    r := AddSlice(a.generation, p, interval, sigma, existing);
  }

  // ---------------------------------------------------------------- the file

  /** What there is of a file: its expiry on the chain, the material of each of its copies, and every
      span of life the chain has accepted. */
  datatype File = File(expireTime: nat, material: seq<map<int, Sigma>>, lives: seq<Period>)

  ghost predicate Live(lives: seq<Period>, t: nat) {
    exists i :: 0 <= i < |lives| && lives[i].start <= t <= lives[i].end
  }

  predicate LongEnough(f: File, e: Extension) { e.newExpire > e.current && e.newExpire > f.expireTime }

  predicate Accepts(f: File, e: Extension) { LongEnough(f, e) && e.chainTakes }

  /** From the old expiry on, or from now if the file had expired. */
  function Gained(f: File, e: Extension): Period {
    Period(if f.expireTime <= e.current then e.current else f.expireTime, e.newExpire)
  }

  /** The extension brings the material of copy `k`. */
  ghost predicate Provides(f: File, e: Extension, k: nat, interval: nat)
    requires interval > 0 && k < |e.attempts|
  {
    Accepts(f, e) && e.listed && Succeeds(e.attempts[k], Gained(f, e), interval)
  }

  /** The expiry moves with the chain; the material of each copy follows if its attempt succeeds. */
  ghost predicate Extended(f: File, e: Extension, g: File, interval: nat, sigma: nat -> int -> Sigma)
    requires interval > 0
  {
    && |e.attempts| == |f.material| == |g.material|
    && (if Accepts(f, e) then g.expireTime == e.newExpire && g.lives == f.lives + [Gained(f, e)]
        else g.expireTime == f.expireTime && g.lives == f.lives)
    && forall k :: 0 <= k < |f.material| ==>
         if Provides(f, e, k, interval) then Added(g.material[k], f.material[k], sigma(k), Gained(f, e), interval)
         else g.material[k] == f.material[k]
  }

  /** Just written: every copy has the material of the first span. */
  ghost predicate Published(f: File, now: nat, interval: nat, sigma: nat -> int -> Sigma)
    requires interval > 0
  {
    && f.lives == [Period(now, f.expireTime)]
    && forall k :: 0 <= k < |f.material| ==> Added(f.material[k], map[], sigma(k), f.lives[0], interval)
  }

  class StoredFile {
    const interval: nat
    const sigma: nat -> int -> Sigma   // the hidden calculation, for a copy and a round
    var expireTime: nat
    var material: seq<map<int, Sigma>>
    ghost var lives: seq<Period>

    ghost function Seen(): File
      reads this
    {
      File(expireTime, material, lives)
    }

    constructor (interval: nat, sigma: nat -> int -> Sigma, now: nat, expireTime: nat, material: seq<map<int, Sigma>>)
      ensures this.interval == interval && this.sigma == sigma
      ensures Seen() == File(expireTime, material, [Period(now, expireTime)])
    {
      this.interval, this.sigma, this.expireTime, this.material := interval, sigma, expireTime, material;
      lives := [Period(now, expireTime)];
    }

    /** An extension the chain takes lengthens the life, even if then it fails for some copies. It
        succeeds exactly if it brings the material of all; the error is one copy's own. */
    method UpdateFileExpireTime(e: Extension) returns (r: Result<(), ChallengeError>)
      requires interval > 0 && |e.attempts| == |material|
      modifies this
      ensures Extended(old(Seen()), e, Seen(), interval, sigma)
      ensures r == Failure(InvalidExpireTime) <==> e.newExpire <= e.current || e.newExpire <= old(expireTime)
      ensures r == Failure(RefusedByChain) <==> LongEnough(old(Seen()), e) && !e.chainTakes
      ensures e.newExpire > e.current && e.newExpire > old(expireTime) && e.chainTakes ==>
                expireTime == e.newExpire
                && lives == old(lives) + [Period(if old(expireTime) < e.current then e.current else old(expireTime),
                                                 e.newExpire)]
      ensures r.Success? <==> Accepts(old(Seen()), e) && e.listed
                              && forall k :: 0 <= k < |e.attempts| ==> Provides(old(Seen()), e, k, interval)
      ensures Accepts(old(Seen()), e) && r.Failure? ==>
                if !e.listed then r.error == NoNodes
                else exists k :: 0 <= k < |e.attempts|
                                 && Explains(r.error, e.attempts[k], Gained(old(Seen()), e), interval)
    {
      if e.newExpire <= e.current || e.newExpire <= expireTime { return Failure(InvalidExpireTime); }
      if !e.chainTakes { return Failure(RefusedByChain); }
      var startTime := expireTime;
      if startTime <= e.current {
        startTime := e.current;
      }
      expireTime := e.newExpire;
      lives := lives + [Period(startTime, e.newExpire)];
      if !e.listed { return Failure(NoNodes); }
      var err;
      material, err := ExtendAll(e.attempts, Period(startTime, e.newExpire), interval, sigma, material);
      return if err.Some? then Failure(err.value) else Success(());
    }
  }

  function Positions(n: nat): (s: set<nat>)
    ensures forall k :: k in s <==> 0 <= k < n
  {
    if n == 0 then {} else Positions(n - 1) + {n - 1}
  }

  /** All copies at once: each attempt touches its own material only, and the error that is written
      last is reported. */
  method ExtendAll(attempts: seq<Attempt>, p: Period, interval: nat, sigma: nat -> int -> Sigma,
                   existing: seq<map<int, Sigma>>)
    returns (material: seq<map<int, Sigma>>, err: Option<ChallengeError>)
    requires interval > 0 && |attempts| == |existing|
    ensures |material| == |existing|
    ensures forall k :: 0 <= k < |existing| ==>
              if Succeeds(attempts[k], p, interval) then Added(material[k], existing[k], sigma(k), p, interval)
              else material[k] == existing[k]
    ensures err.None? <==> forall k :: 0 <= k < |attempts| ==> Succeeds(attempts[k], p, interval)
    ensures err.Some? ==> exists k :: 0 <= k < |attempts| && Explains(err.value, attempts[k], p, interval)
  {
    material, err := existing, None;
    var todo := Positions(|existing|);
    while todo != {}
      invariant |material| == |existing| && forall k :: k in todo ==> 0 <= k < |existing|
      invariant forall k :: k in todo ==> material[k] == existing[k]
      invariant forall k :: 0 <= k < |existing| && k !in todo ==>
        if Succeeds(attempts[k], p, interval) then Added(material[k], existing[k], sigma(k), p, interval)
        else material[k] == existing[k] && err.Some?
      invariant err.Some? ==>
        exists k :: 0 <= k < |attempts| && k !in todo && Explains(err.value, attempts[k], p, interval)
      decreases todo
    {
      var k :| k in todo;
      var one := ExtendCopy(attempts[k], p, interval, sigma(k), existing[k]);
      if one.Success? { material := material[k := one.value]; } else { err := Some(one.error); }
      todo := todo - {k};
    }
  }

  /** The end of a write: the material of every copy first, then the chain. Once an attempt has
      failed nothing more is pushed. */
  method PublishFile(interval: nat, sigma: nat -> int -> Sigma, now: nat, expireTime: nat, listed: bool,
                     generations: seq<Generation>, chainTakes: bool)
    returns (r: Result<StoredFile, ChallengeError>)
    requires interval > 0
    ensures var p := Period(now, expireTime);
            && (r.Success? <==> listed && chainTakes
                                && forall k :: 0 <= k < |generations| ==> Generates(generations[k], p, interval))
            && (r == Failure(NoNodes) <==> !listed)
            && (r == Failure(RefusedByChain) <==>
                  && listed && !chainTakes
                  && forall k :: 0 <= k < |generations| ==> Generates(generations[k], p, interval))
            && (r.Failure? && r.error != NoNodes && r.error != RefusedByChain ==>
                  exists k :: 0 <= k < |generations| && ExplainsGeneration(r.error, generations[k], p, interval))
    ensures r.Success? ==>
              fresh(r.value) && r.value.interval == interval && r.value.sigma == sigma
              && r.value.expireTime == expireTime && |r.value.material| == |generations|
              && Published(r.value.Seen(), now, interval, sigma)
  {
    if !listed { return Failure(NoNodes); }
    var p := Period(now, expireTime);
    var material := seq(|generations|, _ => map[]);
    var err: Option<ChallengeError> := None;
    var todo := Positions(|generations|);
    while todo != {}
      invariant |material| == |generations| && forall k :: k in todo ==> 0 <= k < |generations|
      invariant err.None? ==> forall k :: 0 <= k < |generations| && k !in todo ==>
        Generates(generations[k], p, interval) && Added(material[k], map[], sigma(k), p, interval)
      invariant err.Some? ==>
        exists k :: 0 <= k < |generations| && ExplainsGeneration(err.value, generations[k], p, interval)
      decreases todo
    {
      var k :| k in todo;
      var one := AddSlice(generations[k], p, interval, sigma(k), map[]);
      if one.Failure? { err := Some(one.error); } else if err.None? { material := material[k := one.value]; }
      todo := todo - {k};
    }
    if err.Some? { return Failure(err.value); }
    if !chainTakes { return Failure(RefusedByChain); }
    var f := new StoredFile(interval, sigma, now, expireTime, material);
    return Success(f);
  }

  // ---------------------------------------------------------------- whole lives

  /** A file that is published with so many copies and then asked for the extensions in turn: its
      states, the extensions, when it was written, and what every copy is challenged with. */
  datatype History = History(files: seq<File>, extensions: seq<Extension>, copies: nat, now: nat, interval: nat,
                             sigma: nat -> int -> Sigma)
  {
    ghost predicate Valid() {
      && interval > 0 && |files| == |extensions| + 1 && Published(files[0], now, interval, sigma)
      && (forall i :: 0 <= i < |files| ==> |files[i].material| == copies)
      && forall i :: 0 <= i < |extensions| ==> Extended(files[i], extensions[i], files[i + 1], interval, sigma)
    }

    ghost predicate Accepted(i: nat)
      requires Valid() && i < |extensions|
    {
      Accepts(files[i], extensions[i])
    }

    /** Extension `i` was accepted, and brought the material of copy `k`. */
    ghost predicate Brought(k: nat, i: nat)
      requires Valid() && i < |extensions|
    {
      k < |extensions[i].attempts| && Provides(files[i], extensions[i], k, interval)
    }

    /** Extension `i` was accepted, and did not bring the material of copy `k`. */
    ghost predicate Missed(k: nat, i: nat)
      requires Valid() && i < |extensions|
    {
      Accepted(i) && !Brought(k, i)
    }

    ghost function Span(i: nat): Period
      requires Valid() && i < |extensions|
    {
      Gained(files[i], extensions[i])
    }

    ghost function First(i: nat): int
      requires Valid() && i < |extensions|
    {
      Round(Span(i).start, interval)
    }

    ghost function Last(i: nat): int
      requires Valid() && i < |extensions|
    {
      Round(Span(i).end, interval)
    }

    ghost predicate Initial(r: int)
      requires Valid()
    {
      InRounds(Period(now, files[0].expireTime), interval, r)
    }

    ghost predicate InSpan(i: nat, r: int)
      requires Valid() && i < |extensions|
    {
      First(i) <= r <= Last(i)
    }

    /** The round is one of the first span, or of a span before the `n`-th whose material was brought. */
    ghost predicate Given(k: nat, n: nat, r: int)
      requires Valid() && n <= |extensions|
    {
      Initial(r) || exists i: nat :: i < n && Brought(k, i) && InSpan(i, r)
    }

    /** Every moment the chain holds the file live has its round at copy `k`. */
    ghost predicate Covered(k: nat, n: nat)
      requires Valid() && k < copies && n < |files|
    {
      forall t: nat :: Live(files[n].lives, t) ==> Round(t, interval) in files[n].material[k]
    }

    /** Every round of every span that was missed is given by another one. */
    ghost predicate MadeUp(k: nat, n: nat)
      requires Valid() && n <= |extensions|
    {
      forall i: nat, r: int :: i < n && Missed(k, i) && InSpan(i, r) ==> Given(k, n, r)
    }

    /** The round in which the span starts was given before: it is one of the first span, or the last
        of a span that was brought. */
    ghost predicate HadBefore(k: nat, i: nat)
      requires Valid() && i < |extensions|
    {
      Initial(First(i)) || exists j: nat :: j < i && Brought(k, j) && Last(j) == First(i)
    }

    /** A later span that was brought starts in the round in which this one ends. */
    ghost predicate RepairedLater(k: nat, i: nat, n: nat)
      requires Valid() && i < n <= |extensions|
    {
      exists j: nat :: i < j < n && Brought(k, j) && First(j) == Last(i)
    }

    /** A missed span is whole all the same: it has one round, given on either side, or two, given on both. */
    ghost predicate Whole(k: nat, i: nat, n: nat)
      requires Valid() && i < n <= |extensions|
    {
      || (First(i) == Last(i) && (HadBefore(k, i) || RepairedLater(k, i, n)))
      || (First(i) + 1 == Last(i) && HadBefore(k, i) && RepairedLater(k, i, n))
    }
  }

  lemma GivenMore(h: History, k: nat, n: nat, r: int)
    requires h.Valid() && n < |h.extensions|
    ensures h.Given(k, n + 1, r) <==> h.Given(k, n, r) || (h.Brought(k, n) && h.InSpan(n, r))
  {
  }

  /** The material of a copy is exactly the rounds given to it, each with its own sigma. */
  lemma {:induction false} MaterialExact(h: History, k: nat, n: nat)
    requires h.Valid() && k < h.copies && n < |h.files|
    ensures forall r :: r in h.files[n].material[k] <==> h.Given(k, n, r)
    ensures forall r :: r in h.files[n].material[k] ==> h.files[n].material[k][r] == h.sigma(k)(r)
    decreases n
  {
    if n > 0 {
      MaterialExact(h, k, n - 1);
      assert Extended(h.files[n - 1], h.extensions[n - 1], h.files[n - 1 + 1], h.interval, h.sigma);
      forall r ensures r in h.files[n].material[k] <==> h.Given(k, n, r) {
        GivenMore(h, k, n - 1, r);
      }
    }
  }

  /** No earlier round is ever dropped, and none changes, whatever fails. */
  lemma NothingDropped(h: History, k: nat, m: nat, n: nat)
    requires h.Valid() && k < h.copies && m <= n < |h.files|
    ensures forall r :: r in h.files[m].material[k] ==>
              r in h.files[n].material[k] && h.files[n].material[k][r] == h.files[m].material[k][r]
  {
    MaterialExact(h, k, m);
    MaterialExact(h, k, n);
  }

  /** The spans of life are the first one and those of the extensions accepted. */
  lemma {:induction false} LivesAre(h: History, n: nat, p: Period)
    requires h.Valid() && n < |h.files|
    ensures p in h.files[n].lives <==>
            || p == Period(h.now, h.files[0].expireTime)
            || exists i: nat :: i < n && h.Accepted(i) && p == h.Span(i)
    decreases n
  {
    if n > 0 {
      LivesAre(h, n - 1, p);
      assert Extended(h.files[n - 1], h.extensions[n - 1], h.files[n - 1 + 1], h.interval, h.sigma);
      assert h.Accepted(n - 1) ==> h.files[n].lives == h.files[n - 1].lives + [h.Span(n - 1)];
    }
  }

  /** After a write and any extensions, whatever succeeds and fails in them: every live moment has its
      round at a copy if and only if every round of every accepted span whose material did not reach the
      copy lies in some span whose material did. */
  lemma CoverageExact(h: History, k: nat, n: nat)
    requires h.Valid() && k < h.copies && n < |h.files|
    ensures h.Covered(k, n) <==> h.MadeUp(k, n)
  {
    MaterialExact(h, k, n);
    if h.Covered(k, n) {
      forall i: nat, r: int | i < n && h.Missed(k, i) && h.InSpan(i, r)
        ensures h.Given(k, n, r)
      {
        RoundIsLive(h, n, i, r);
      }
    }
    if h.MadeUp(k, n) {
      forall t: nat | Live(h.files[n].lives, t) ensures Round(t, h.interval) in h.files[n].material[k] {
        LiveIsGiven(h, k, n, t);
      }
    }
  }

  lemma RoundIsLive(h: History, n: nat, i: nat, r: int)
    requires h.Valid() && i < n < |h.files|
    requires h.Accepted(i) && h.InSpan(i, r)
    ensures exists t: nat :: Live(h.files[n].lives, t) && Round(t, h.interval) == r
  {
    var p := h.Span(i);
    FirstMoment(p, h.interval, r);
    var t: nat :| p.start <= t <= p.end && Round(t, h.interval) == r;
    LivesAre(h, n, p);
    assert Live(h.files[n].lives, t);
  }

  lemma LiveIsGiven(h: History, k: nat, n: nat, t: nat)
    requires h.Valid() && n < |h.files|
    requires h.MadeUp(k, n) && Live(h.files[n].lives, t)
    ensures h.Given(k, n, Round(t, h.interval))
  {
    var j :| 0 <= j < |h.files[n].lives| && h.files[n].lives[j].start <= t <= h.files[n].lives[j].end;
    var p := h.files[n].lives[j];
    LivesAre(h, n, p);
    RoundsOfPeriod(p, h.interval, Round(t, h.interval));
    assert InRounds(p, h.interval, Round(t, h.interval));
    if p != Period(h.now, h.files[0].expireTime) {
      var i: nat :| i < n && h.Accepted(i) && p == h.Span(i);
      assert h.Missed(k, i) || h.Brought(k, i);
    }
  }

  /** Any extension to a time ahead of now and of the old expiry that the chain takes is accepted, also
      that of an expired file: it lives on from now if it had expired, and else without a break. */
  lemma LivesOn(h: History, n: nat, t: nat)
    requires h.Valid() && n < |h.extensions|
    requires var e := h.extensions[n];
             e.chainTakes && e.newExpire > e.current && e.newExpire > h.files[n].expireTime
    ensures var e := h.extensions[n];
            && h.files[n + 1].expireTime == e.newExpire
            && (Live(h.files[n + 1].lives, t) <==>
                  || Live(h.files[n].lives, t)
                  || (e.current <= t <= e.newExpire && h.files[n].expireTime <= t))
  {
    var f, e, g := h.files[n], h.extensions[n], h.files[n + 1];
    assert Extended(f, e, g, h.interval, h.sigma);
    assert g.lives == f.lives + [Gained(f, e)];
    if Live(f.lives, t) {
      var i :| 0 <= i < |f.lives| && f.lives[i].start <= t <= f.lives[i].end;
      assert g.lives[i] == f.lives[i];
    }
    assert g.lives[|f.lives|] == Gained(f, e);
  }

  // ---------------------------------------------------------------- which rounds come back

  lemma {:induction false} ExpiryGrows(h: History, m: nat, n: nat)
    requires h.Valid() && m <= n < |h.files|
    ensures h.files[m].expireTime <= h.files[n].expireTime
    decreases n
  {
    if m < n {
      ExpiryGrows(h, m, n - 1);
      assert Extended(h.files[n - 1], h.extensions[n - 1], h.files[n - 1 + 1], h.interval, h.sigma);
    }
  }

  /** Spans come one after the other, so two of them share at most the round in which the earlier
      one ends and the later one starts. */
  lemma SharedRound(h: History, i: nat, j: nat, r: int)
    requires h.Valid() && i < j < |h.extensions|
    requires h.Accepted(i) && h.Accepted(j)
    ensures h.Span(i).end <= h.Span(j).start
    ensures h.InSpan(i, r) && h.InSpan(j, r) <==> r == h.Last(i) == h.First(j)
  {
    var p, q := h.Span(i), h.Span(j);
    assert Extended(h.files[i], h.extensions[i], h.files[i + 1], h.interval, h.sigma);
    ExpiryGrows(h, i + 1, j);
    RoundMonotone(p.start, p.end, h.interval);
    RoundMonotone(p.end, q.start, h.interval);
    RoundMonotone(q.start, q.end, h.interval);
  }

  lemma FirstSpan(h: History, i: nat, r: int)
    requires h.Valid() && i < |h.extensions|
    requires h.Initial(r) && h.InSpan(i, r)
    ensures r == h.First(i)
  {
    ExpiryGrows(h, 0, i);
    RoundMonotone(h.files[0].expireTime, h.Span(i).start, h.interval);
  }

  /** Of a span that was missed exactly these rounds are there all the same: the first if it was given
      before, and the last if a later extension that succeeds starts in it. All others are lost for good. */
  lemma RoundsThatComeBack(h: History, k: nat, n: nat, i: nat, r: int)
    requires h.Valid() && k < h.copies && i < n < |h.files|
    requires h.Missed(k, i) && h.InSpan(i, r)
    ensures r in h.files[n].material[k] <==>
            || (r == h.First(i) && h.HadBefore(k, i))
            || (r == h.Last(i) && h.RepairedLater(k, i, n))
  {
    MaterialExact(h, k, n);
    if h.Initial(r) {
      FirstSpan(h, i, r);
    }
    forall j: nat | j < n && h.Brought(k, j)
      ensures j != i
      ensures j < i ==> (h.InSpan(j, r) <==> r == h.Last(j) == h.First(i))
      ensures j > i ==> (h.InSpan(j, r) <==> r == h.Last(i) == h.First(j))
    {
      if j < i { SharedRound(h, j, i, r); }
      if j > i { SharedRound(h, i, j, r); }
    }
  }

  /** Extension `m` brings a round that an earlier one has missed exactly if it is the one in which the
      file was to expire, and the extension starts in it. */
  lemma RepairsOneRound(h: History, k: nat, i: nat, m: nat, r: int)
    requires h.Valid() && k < h.copies && i < m < |h.extensions|
    requires h.Missed(k, i) && h.InSpan(i, r)
    requires h.Brought(k, m) && r !in h.files[m].material[k]
    ensures r in h.files[m + 1].material[k] <==> r == Round(h.files[m].expireTime, h.interval) == h.First(m)
  {
    var q := h.Span(m);
    assert Extended(h.files[i], h.extensions[i], h.files[i + 1], h.interval, h.sigma);
    assert Extended(h.files[m], h.extensions[m], h.files[m + 1], h.interval, h.sigma);
    ExpiryGrows(h, i + 1, m);
    RoundMonotone(h.files[i + 1].expireTime, h.files[m].expireTime, h.interval);
    RoundMonotone(h.files[m].expireTime, q.start, h.interval);
    RoundMonotone(q.start, q.end, h.interval);
  }

  lemma WholeExactly(h: History, k: nat, n: nat, i: nat)
    requires h.Valid() && k < h.copies && i < n < |h.files|
    requires h.Missed(k, i)
    ensures h.Whole(k, i, n) <==> forall r :: h.InSpan(i, r) ==> r in h.files[n].material[k]
  {
    RoundMonotone(h.Span(i).start, h.Span(i).end, h.interval);
    forall r | h.InSpan(i, r)
      ensures r in h.files[n].material[k] <==>
              (r == h.First(i) && h.HadBefore(k, i)) || (r == h.Last(i) && h.RepairedLater(k, i, n))
    {
      RoundsThatComeBack(h, k, n, i, r);
    }
    assert h.InSpan(i, h.First(i)) && h.InSpan(i, h.Last(i));
    assert h.First(i) + 1 < h.Last(i) ==> h.InSpan(i, h.First(i) + 1);
  }

  /** The same condition by the edges of the spans: every missed span has at most two rounds, and those
      are given by its neighbours. */
  lemma CoveredByNeighbours(h: History, k: nat, n: nat)
    requires h.Valid() && k < h.copies && n < |h.files|
    ensures h.Covered(k, n) <==> forall i: nat :: i < n && h.Missed(k, i) ==> h.Whole(k, i, n)
  {
    CoverageExact(h, k, n);
    MaterialExact(h, k, n);
    forall i: nat | i < n && h.Missed(k, i)
      ensures h.Whole(k, i, n) <==> forall r :: h.InSpan(i, r) ==> h.Given(k, n, r)
    {
      WholeExactly(h, k, n, i);
    }
  }

  // ---------------------------------------------------------------- three lives

  /** Everything works, but for what is said. */
  function Works(online: bool, pushes: bool): Attempt {
    Attempt(online, true, true, true, Generation(true, _ => true, pushes))
  }

  lemma OneMoment(t: nat)
    ensures Round(t, 1) == t
  {
    RoundIs(t, 1, t);
  }

  lemma FirstFile(interval: nat, sigma: nat -> int -> Sigma) returns (f: File)
    requires interval > 0
    ensures f == File(0, [map[0 := sigma(0)(0)]], [Period(0, 0)]) && Published(f, 0, interval, sigma)
    ensures InRounds(Period(0, 0), interval, 0)
  {
    RoundIs(0, interval, 0);
    f := File(0, [map[0 := sigma(0)(0)]], [Period(0, 0)]);
  }

  /** Every sigma can be calculated, but the node is offline in one extension: its last moment is without
      a round, also after the next extension, which starts later. */
  lemma OfflineGap(sigma: nat -> int -> Sigma) returns (h: History)
    ensures h.Valid() && h.interval == 1 && h.sigma == sigma && h.copies == 1
    ensures h.extensions == [Extension(0, 1, true, true, [Works(false, true)]),
                             Extension(2, 3, true, true, [Works(true, true)])]
    ensures Live(h.files[2].lives, 1) && Round(1, 1) !in h.files[2].material[0] && Round(3, 1) in h.files[2].material[0]
  {
    var e := Extension(0, 1, true, true, [Works(false, true)]);
    var e' := Extension(2, 3, true, true, [Works(true, true)]);
    var f := FirstFile(1, sigma);
    var one := sigma(0);
    var g := File(1, f.material, [Period(0, 0), Period(0, 1)]);
    var g' := File(3, [map[0 := one(0), 2 := one(2), 3 := one(3)]], [Period(0, 0), Period(0, 1), Period(2, 3)]);
    OneMoment(1);
    OneMoment(2);
    OneMoment(3);
    assert Gained(g, e') == Period(2, 3) && Gained(f, e) == Period(0, 1);
    assert forall r :: InRounds(Period(2, 3), 1, r) <==> r == 2 || r == 3;
    assert Extended(f, e, g, 1, sigma) && Extended(g, e', g', 1, sigma);
    h := History([f, g, g'], [e, e'], 1, 0, 1, sigma);
    assert g'.lives[1] == Period(0, 1);
  }

  /** An extension within one round misses its span, and all live moments are covered nevertheless. */
  lemma CoveredAnyway(sigma: nat -> int -> Sigma) returns (h: History)
    ensures h.Valid() && h.interval == 10 && h.sigma == sigma && h.copies == 1
    ensures h.extensions == [Extension(0, 1, true, true, [Works(true, false)])]
    ensures h.Missed(0, 0) && h.Covered(0, 1)
  {
    var e := Extension(0, 1, true, true, [Works(true, false)]);
    var f := FirstFile(10, sigma);
    var g := File(1, f.material, [Period(0, 0), Period(0, 1)]);
    assert Extended(f, e, g, 10, sigma);
    h := History([f, g], [e], 1, 0, 10, sigma);
    forall t: nat | Live(g.lives, t) ensures Round(t, 10) in g.material[0] {
      RoundIs(t, 10, 0);
    }
  }

  /** An extension misses its span, and the next one, which starts in the round where that span ends,
      repairs it. */
  lemma RepairedByNext(sigma: nat -> int -> Sigma) returns (h: History)
    ensures h.Valid() && h.interval == 1 && h.sigma == sigma && h.copies == 1
    ensures h.extensions == [Extension(0, 1, true, true, [Works(true, false)]),
                             Extension(1, 2, true, true, [Works(true, true)])]
    ensures h.Missed(0, 0) && !h.Covered(0, 1) && h.Covered(0, 2)
  {
    var e := Extension(0, 1, true, true, [Works(true, false)]);
    var e' := Extension(1, 2, true, true, [Works(true, true)]);
    var f := FirstFile(1, sigma);
    var one := sigma(0);
    var g := File(1, f.material, [Period(0, 0), Period(0, 1)]);
    var g' := File(2, [map[0 := one(0), 1 := one(1), 2 := one(2)]], [Period(0, 0), Period(0, 1), Period(1, 2)]);
    OneMoment(1);
    OneMoment(2);
    assert forall r :: InRounds(Period(1, 2), 1, r) <==> r == 1 || r == 2;
    assert Extended(f, e, g, 1, sigma) && Extended(g, e', g', 1, sigma);
    h := History([f, g, g'], [e, e'], 1, 0, 1, sigma);
    assert g.lives[1] == Period(0, 1) && Live(g.lives, 1);
    forall t: nat | Live(g'.lives, t) ensures Round(t, 1) in g'.material[0] {
      OneMoment(t);
    }
  }
}
