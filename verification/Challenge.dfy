/** The material a storage node is challenged with: one sigma a round, generated by concurrent segments. */
module Challenge {
  import opened Integers
  import opened Wrappers

  const SEGMENT_SIZE := 100

  type Sigma = seq<bv8>

  /** Times are nanoseconds since 1970. */
  function Round(t: nat, interval: nat): int
    requires interval > 0
  {
    t / interval
  }

  // ---------------------------------------------------------------- segments

  function Segments(roundStart: int, roundEnd: int): int { Quotient(roundEnd - roundStart, SEGMENT_SIZE) }

  function SegmentStart(roundStart: int, k: nat): int { roundStart + k * SEGMENT_SIZE }

  /** One past the last round of the segment. */
  function SegmentEnd(roundStart: int, roundEnd: int, k: nat): int {
    var end := SegmentStart(roundStart, k) + SEGMENT_SIZE;
    if end > roundEnd then roundEnd + 1 else end
  }

  predicate InSegment(roundStart: int, roundEnd: int, k: nat, r: int) {
    && k <= Segments(roundStart, roundEnd)
    && SegmentStart(roundStart, k) <= r < SegmentEnd(roundStart, roundEnd, k)
  }

  /** The segments partition the rounds from the first to the last: none missed, none done twice,
      none beyond; and there is none at all when the last comes before the first. */
  lemma SegmentsPartition(roundStart: int, roundEnd: int, r: int)
    ensures (exists k: nat :: InSegment(roundStart, roundEnd, k, r)) <==> roundStart <= r <= roundEnd
    ensures forall j: nat, k: nat ::
              InSegment(roundStart, roundEnd, j, r) && InSegment(roundStart, roundEnd, k, r) ==> j == k
  {
    if roundStart <= r <= roundEnd {
      var k := (r - roundStart) / SEGMENT_SIZE;
      assert InSegment(roundStart, roundEnd, k, r);
    }
  }

  /** Every segment but the last has a hundred rounds, and the last one to a hundred. */
  lemma SegmentLength(roundStart: int, roundEnd: int, k: nat)
    requires roundStart <= roundEnd && k <= Segments(roundStart, roundEnd)
    ensures var length := SegmentEnd(roundStart, roundEnd, k) - SegmentStart(roundStart, k);
            if k < Segments(roundStart, roundEnd) then length == 100 else 1 <= length <= 100
  {
  }

  // ---------------------------------------------------------------- generating

  /** `InvalidExpireTime` and `RefusedByChain` come before anything has changed. */
  datatype ChallengeError =
    | NoSigma | NoNodes | AbnormalNode | NotPulled | NotPushed
    | InvalidExpireTime | RefusedByChain

  /** What a segment has still to do: the rounds from `next` up to `end`. */
  datatype Segment = Segment(next: int, end: int)

  /** `sigmas` is what there was, with the sigmas of all the rounds. */
  ghost predicate Generated(sigmas: map<int, Sigma>, existing: map<int, Sigma>, sign: int -> Option<Sigma>,
                            roundStart: int, roundEnd: int)
  {
    && (forall r :: r in sigmas <==> r in existing || roundStart <= r <= roundEnd)
    && (forall r :: roundStart <= r <= roundEnd ==> r in sigmas && sign(r) == Some(sigmas[r]))
    && (forall r :: r in existing && !(roundStart <= r <= roundEnd) ==> sigmas[r] == existing[r])
  }

  ghost predicate AllIn(ss: seq<Segment>, roundStart: int, roundEnd: int) {
    && |ss| == (if Segments(roundStart, roundEnd) >= 0 then Segments(roundStart, roundEnd) + 1 else 0)
    && forall k :: 0 <= k < |ss| ==>
         SegmentStart(roundStart, k) <= ss[k].next && ss[k].end == SegmentEnd(roundStart, roundEnd, k)
  }

  /** Every round behind its segment's next one has its sigma. */
  ghost predicate UpToDate(ss: seq<Segment>, sigmas: map<int, Sigma>, sign: int -> Option<Sigma>, roundStart: int) {
    forall k, r :: 0 <= k < |ss| && SegmentStart(roundStart, k) <= r < ss[k].next
                   ==> r in sigmas && sign(r) == Some(sigmas[r])
  }

  /** What is in the map is old, or the sigma of one of the rounds. */
  ghost predicate NothingElse(sigmas: map<int, Sigma>, existing: map<int, Sigma>, sign: int -> Option<Sigma>,
                              roundStart: int, roundEnd: int)
  {
    && (forall r :: r in existing ==> r in sigmas)
    && (forall r :: r in sigmas ==>
          (roundStart <= r <= roundEnd && sign(r) == Some(sigmas[r])) || (r in existing && sigmas[r] == existing[r]))
  }

  function Left(ss: seq<Segment>): nat {
    if ss == [] then 0 else Left(ss[1..]) + if ss[0].next < ss[0].end then ss[0].end - ss[0].next else 0
  }

  lemma {:induction false} LeftShrinks(ss: seq<Segment>, k: nat, s: Segment)
    requires k < |ss| && ss[k].next < ss[k].end == s.end && ss[k].next < s.next <= s.end
    ensures Left(ss[k := s]) < Left(ss)
  {
    if k == 0 {
      assert ss[0 := s][1..] == ss[1..];
    } else {
      LeftShrinks(ss[1..], k - 1, s);
      assert ss[k := s][1..] == ss[1..][k - 1 := s];
    }
  }

  /** What holds while the segments are at work; `failed` says that some sigma could not be had. */
  ghost predicate Going(ss: seq<Segment>, sigmas: map<int, Sigma>, failed: bool, existing: map<int, Sigma>,
                        sign: int -> Option<Sigma>, roundStart: int, roundEnd: int)
  {
    && AllIn(ss, roundStart, roundEnd)
    && (!failed ==> UpToDate(ss, sigmas, sign, roundStart))
    && NothingElse(sigmas, existing, sign, roundStart, roundEnd)
    && (failed ==> exists i :: roundStart <= i <= roundEnd && sign(i).None?)
  }

  function Advanced(s: Segment, sigma: Option<Sigma>): Segment {
    s.(next := if sigma.Some? then s.next + 1 else s.end)
  }

  lemma {:induction false} OneRound(ss: seq<Segment>, sigmas: map<int, Sigma>, existing: map<int, Sigma>,
                                    sign: int -> Option<Sigma>, roundStart: int, roundEnd: int, k: nat)
    requires AllIn(ss, roundStart, roundEnd) && Busy(ss, k)
    ensures roundStart <= ss[k].next <= roundEnd
    ensures AllIn(ss[k := Advanced(ss[k], sign(ss[k].next))], roundStart, roundEnd)
    ensures UpToDate(ss, sigmas, sign, roundStart) && sign(ss[k].next).Some? ==>
              UpToDate(ss[k := Advanced(ss[k], sign(ss[k].next))], sigmas[ss[k].next := sign(ss[k].next).value],
                       sign, roundStart)
    ensures Left(ss[k := Advanced(ss[k], sign(ss[k].next))]) < Left(ss)
  {
    assert InSegment(roundStart, roundEnd, k, ss[k].next);
    SegmentsPartition(roundStart, roundEnd, ss[k].next);
    LeftShrinks(ss, k, Advanced(ss[k], sign(ss[k].next)));
  }

  predicate Busy(ss: seq<Segment>, k: int) { 0 <= k < |ss| && ss[k].next < ss[k].end }

  method StartSegments(roundStart: int, roundEnd: int) returns (ss: seq<Segment>)
    ensures AllIn(ss, roundStart, roundEnd)
    ensures forall k :: 0 <= k < |ss| ==> ss[k].next == SegmentStart(roundStart, k)
  {
    var segments := Segments(roundStart, roundEnd);
    ss := [];
    for k := 0 to if segments >= 0 then segments + 1 else 0
      invariant |ss| == k && forall j :: 0 <= j < k ==>
        ss[j] == Segment(SegmentStart(roundStart, j), SegmentEnd(roundStart, roundEnd, j))
    {
      ss := ss + [Segment(SegmentStart(roundStart, k), SegmentEnd(roundStart, roundEnd, k))];
    }
  }

  /** All segments at once: in each step some segment does its next round and stores the sigma under
      the lock, or fails and does no more. Nothing is pushed when one failed. */
  method GenerateRounds(roundStart: int, roundEnd: int, existing: map<int, Sigma>, sign: int -> Option<Sigma>)
    returns (r: Result<map<int, Sigma>, ChallengeError>)
    ensures r.Success? <==> forall i :: roundStart <= i <= roundEnd ==> sign(i).Some?
    ensures r.Success? ==> Generated(r.value, existing, sign, roundStart, roundEnd)
    ensures r.Failure? ==> r.error == NoSigma
  {
    var ss := StartSegments(roundStart, roundEnd);
    var sigmas := existing;
    var failed := false;
    while exists k :: 0 <= k < |ss| && Busy(ss, k)
      invariant Going(ss, sigmas, failed, existing, sign, roundStart, roundEnd)
      decreases Left(ss)
    {
      var k :| 0 <= k < |ss| && Busy(ss, k);
      var i := ss[k].next;
      var sigma := sign(i);
      OneRound(ss, sigmas, existing, sign, roundStart, roundEnd, k);
      ss := ss[k := Advanced(ss[k], sigma)];
      if sigma.Some? {
        sigmas := sigmas[i := sigma.value];
      } else {
        failed := true;
      }
    }
    if failed { return Failure(NoSigma); }
    AllGenerated(ss, sigmas, existing, sign, roundStart, roundEnd);
    return Success(sigmas);
  }

  /** Generates the sigmas of all rounds from `start` to `end`, on top of those there are. */
  method GenerateSigmas(start: nat, end: nat, interval: nat, existing: map<int, Sigma>, sign: int -> Option<Sigma>)
    returns (r: Result<map<int, Sigma>, ChallengeError>)
    requires interval > 0
    ensures r.Success? <==> forall i :: Round(start, interval) <= i <= Round(end, interval) ==> sign(i).Some?
    ensures r.Success? ==> Generated(r.value, existing, sign, Round(start, interval), Round(end, interval))
    ensures r.Failure? ==> r.error == NoSigma
  {
    r := GenerateRounds(Round(start, interval), Round(end, interval), existing, sign);
  }

  lemma AllGenerated(ss: seq<Segment>, sigmas: map<int, Sigma>, existing: map<int, Sigma>,
                                        sign: int -> Option<Sigma>, roundStart: int, roundEnd: int)
    requires AllIn(ss, roundStart, roundEnd) && forall k :: 0 <= k < |ss| ==> !Busy(ss, k)
    requires UpToDate(ss, sigmas, sign, roundStart)
    requires NothingElse(sigmas, existing, sign, roundStart, roundEnd)
    ensures Generated(sigmas, existing, sign, roundStart, roundEnd)
  {
    forall r | roundStart <= r <= roundEnd ensures r in sigmas && sign(r) == Some(sigmas[r]) {
      SegmentsPartition(roundStart, roundEnd, r);
      var k: nat :| InSegment(roundStart, roundEnd, k, r);
      assert !Busy(ss, k);
    }
  }

  // ---------------------------------------------------------------- rounds and moments

  /** A span of life that the chain has accepted. */
  datatype Period = Period(start: nat, end: nat)

  /** The rounds of a period are those of its moments. */
  lemma RoundsOfPeriod(p: Period, interval: nat, r: int)
    requires interval > 0 && p.start <= p.end
    ensures Round(p.start, interval) <= r <= Round(p.end, interval)
            <==> exists t: nat :: p.start <= t <= p.end && Round(t, interval) == r
  {
    if Round(p.start, interval) <= r <= Round(p.end, interval) {
      FirstMoment(p, interval, r);
    }
    if t: nat :| p.start <= t <= p.end && Round(t, interval) == r {
      RoundMonotone(p.start, t, interval);
      RoundMonotone(t, p.end, interval);
    }
  }

  lemma FirstMoment(p: Period, interval: nat, r: int)
    requires interval > 0 && Round(p.start, interval) <= r <= Round(p.end, interval) && p.start <= p.end
    ensures exists t: nat :: p.start <= t <= p.end && Round(t, interval) == r
  {
    var first, last := Round(p.start, interval), Round(p.end, interval);
    if r == first {
      assert p.start <= p.start <= p.end;
    } else {
      var t: nat := r * interval;
      RoundIs(t, interval, r);
      RoundBounds(p.start, interval);
      RoundBounds(p.end, interval);
      Ordered(first + 1, r, interval);
      Ordered(r, last, interval);
    }
  }

  lemma RoundBounds(t: nat, interval: nat)
    requires interval > 0
    ensures Round(t, interval) * interval <= t < (Round(t, interval) + 1) * interval
  {
    assert t == interval * (t / interval) + t % interval;
  }

  lemma Ordered(a: int, b: int, n: nat)
    requires a <= b
    ensures a * n <= b * n
  {
    assert b * n - a * n == (b - a) * n;
  }

  lemma RoundIs(t: nat, interval: nat, r: nat)
    requires interval > 0 && r * interval <= t < (r + 1) * interval
    ensures Round(t, interval) == r
  {
    RoundBounds(t, interval);
    if Round(t, interval) < r {
      Ordered(Round(t, interval) + 1, r, interval);
    } else if Round(t, interval) > r {
      Ordered(r + 1, Round(t, interval), interval);
    }
  }

  lemma RoundMonotone(s: nat, t: nat, interval: nat)
    requires interval > 0 && s <= t
    ensures Round(s, interval) <= Round(t, interval)
  {
    RoundBounds(s, interval);
    RoundBounds(t, interval);
    if Round(t, interval) < Round(s, interval) {
      Ordered(Round(t, interval) + 1, Round(s, interval), interval);
    }
  }

  predicate InRounds(p: Period, interval: nat, r: int)
    requires interval > 0
  {
    Round(p.start, interval) <= r <= Round(p.end, interval)
  }
}
