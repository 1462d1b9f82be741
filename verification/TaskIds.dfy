/**
 Task IDs of the evaluators, and how results find their way back by parsing them.

 A user's task ID is a uuid, so it has no underscore. The evaluators build further IDs
 from it by appending underscores, a fold number and words.
 */
module TaskIds {
  import opened Wrappers

  type TaskId = string

  // ---------------------------------------------------------------- strings.Split, strings.SplitN

  function Split(s: string): (r: seq<string>)
    ensures r != []
  {
    if s == [] then [""]
    else if s[0] == '_' then [""] + Split(s[1..])
    else
      var r := Split(s[1..]);
      [[s[0]] + r[0]] + r[1..]
  }

  /** At most `n` pieces, the last one with all that is left. */
  function SplitN(s: string, n: nat): (r: seq<string>)
    requires n >= 1
    ensures 1 <= |r| <= n
  {
    if n == 1 then [s]
    else if s == [] then [""]
    else if s[0] == '_' then [""] + SplitN(s[1..], n - 1)
    else
      var r := SplitN(s[1..], n);
      [[s[0]] + r[0]] + r[1..]
  }

  lemma {:induction false} SplitWord(a: string)
    requires '_' !in a
    ensures Split(a) == [a]
  {
    if a != [] {
      assert a[0] in a;
      SplitWord(a[1..]);
      assert a == [a[0]] + a[1..];
    }
  }

  lemma {:induction false} SplitFirst(a: string, b: string)
    requires '_' !in a
    ensures Split(a + "_" + b) == [a] + Split(b)
  {
    var s := a + "_" + b;
    if a == [] {
      assert s == ['_'] + b && s[1..] == b;
    } else {
      SplitFirst(a[1..], b);
      assert s[0] == a[0] && s[1..] == a[1..] + "_" + b && a[0] in a;
      assert a == [a[0]] + a[1..];
    }
  }

  lemma {:induction false} SplitNFirst(a: string, b: string, n: nat)
    requires '_' !in a && n >= 2
    ensures SplitN(a + "_" + b, n) == [a] + SplitN(b, n - 1)
  {
    var s := a + "_" + b;
    if a == [] {
      assert s == ['_'] + b && s[1..] == b;
    } else {
      SplitNFirst(a[1..], b, n);
      assert s[0] == a[0] && s[1..] == a[1..] + "_" + b && a[0] in a;
      assert a == [a[0]] + a[1..];
    }
  }

  /** The first piece is without underscores, hence no ID with one comes back from it. */
  lemma {:induction false} FirstPiece(s: string, n: nat)
    requires n >= 2
    ensures '_' !in SplitN(s, n)[0]
  {
    if s != [] && s[0] != '_' { FirstPiece(s[1..], n); }
  }

  // ---------------------------------------------------------------- decimal numbers

  predicate Digit(c: char) { '0' <= c <= '9' }

  /** The %d of fmt, and strconv.Itoa. */
  function Itoa(n: nat): (s: string)
    ensures s != [] && forall c :: c in s ==> Digit(c)
  {
    if n < 10 then ['0' + n as char] else Itoa(n / 10) + ['0' + (n % 10) as char]
  }

  function Digits(s: string): (r: Option<nat>)
    ensures s == [] ==> r == Some(0)
  {
    if s == [] then Some(0)
    else
      var c, r := s[|s| - 1], Digits(s[..|s| - 1]);
      if r.None? || !Digit(c) then None else Some(10 * r.value + (c - '0') as nat)
  }

  const INT32: int := 0x8000_0000
  const INT64: int := 0x8000_0000_0000_0000

  /** strconv.ParseInt in base 10, for integers from -`bound` to `bound` - 1. */
  function ParseInt(s: string, bound: int): Option<int>
  {
    var signed := s != [] && (s[0] == '-' || s[0] == '+');
    var digits := if signed then s[1..] else s;
    var r := Digits(digits);
    if digits == [] || r.None? then None
    else
      var n: int := r.value;
      var v := if signed && s[0] == '-' then -n else n;
      if -bound <= v < bound then Some(v) else None
  }

  lemma {:induction false} DigitsItoa(n: nat)
    ensures Digits(Itoa(n)) == Some(n)
  {
    var s := Itoa(n);
    if n >= 10 {
      DigitsItoa(n / 10);
      assert s[..|s| - 1] == Itoa(n / 10);
    } else {
      assert s[..0] == [];
    }
  }

  lemma {:induction false} ParseItoa(n: nat, bound: int)
    ensures ParseInt(Itoa(n), bound) == if n < bound then Some(n) else None
  {
    DigitsItoa(n);
    assert Digit(Itoa(n)[0]);
  }

  /** With a sign the lower end of the range is one further away than the upper. */
  lemma ParseSigned(n: nat, bound: nat)
    ensures var m: int := n; ParseInt("-" + Itoa(n), bound) == if m <= bound && bound > 0 then Some(-m) else None
    ensures ParseInt("+" + Itoa(n), bound) == if n < bound then Some(n) else None
  {
    DigitsItoa(n);
    assert ("-" + Itoa(n))[1..] == Itoa(n) == ("+" + Itoa(n))[1..];
  }

  lemma {:induction false} DigitsOnly(s: string)
    ensures Digits(s).Some? <==> forall c :: c in s ==> Digit(c)
  {
    if s != [] {
      DigitsOnly(s[..|s| - 1]);
      assert s == s[..|s| - 1] + [s[|s| - 1]];
    }
  }

  /** Nothing but digits after at most one sign is a number. */
  lemma ParsesOnly(s: string, bound: int)
    ensures ParseInt(s, bound).Some? ==>
              && s != [] && (forall c :: c in s[1..] ==> Digit(c))
              && (Digit(s[0]) || ((s[0] == '-' || s[0] == '+') && |s| > 1))
  {
    DigitsOnly(s);
    if s != [] {
      DigitsOnly(s[1..]);
      assert s == [s[0]] + s[1..];
    }
  }

  // ---------------------------------------------------------------- building and parsing

  function EvaTrain(id: TaskId, k: nat): TaskId { id + "_" + Itoa(k) + "_train_Eva" }
  function EvaPredict(id: TaskId, k: nat): TaskId { id + "_" + Itoa(k) + "_predict_Eva" }
  function LivTrain(id: TaskId): TaskId { id + "_" + Itoa(0) + "_train_LEv" }
  function LivPredict(id: TaskId): TaskId { id + "_" + Itoa(0) + "_predict_LEv" }

  datatype Origin = FromUser | FromEvaluator(source: TaskId) | FromLive(source: TaskId)

  predicate EndsWith(s: string, suffix: string) {
    |suffix| <= |s| && s[|s| - |suffix|..] == suffix
  }

  /** An ID that ends in "_LEv" but is shorter than "_0_train_LEv" panics. */
  predicate Parseable(id: TaskId) {
    |id| > 4 && EndsWith(id, "_LEv") ==> |id| >= |"_0_train_LEv"|
  }

  /** Where a training task comes from. */
  function TrainOrigin(id: TaskId): Origin
    requires Parseable(id)
  {
    if |id| <= 4 then FromUser
    else if EndsWith(id, "_Eva") then FromEvaluator(SplitN(id, 2)[0])
    else if EndsWith(id, "_LEv") then FromLive(id[..|id| - |"_0_train_LEv"|])
    else FromUser
  }

  /** What an evaluator made comes from its first piece. */
  lemma {:induction false} EvaluatorsOwn(x: string)
    requires x != ""
    ensures Parseable(x + "_Eva") && TrainOrigin(x + "_Eva") == FromEvaluator(SplitN(x + "_Eva", 2)[0])
  {
    assert (x + "_Eva")[|x|..] == "_Eva" && "_Eva"[1] != "_LEv"[1];
  }

  /** What a live evaluator made comes from all of it but the twelve letters it has added. */
  lemma LiveEvaluatorsOwn(x: string)
    requires |x| >= 8
    ensures Parseable(x + "_LEv") && TrainOrigin(x + "_LEv") == FromLive(x[..|x| - 8])
  {
    assert (x + "_LEv")[|x|..] == "_LEv" && "_Eva"[1] != "_LEv"[1];
    assert (x + "_LEv")[..|x| - 8] == x[..|x| - 8];
  }

  /** Every other ID is a user's. */
  lemma UsersOwn(x: string)
    requires |x| <= 4 || (x[|x| - 4..] != "_Eva" && x[|x| - 4..] != "_LEv")
    ensures Parseable(x) && TrainOrigin(x) == FromUser
  {
  }

  datatype Validation = Validation(source: TaskId, fold: int, live: bool)

  /** Seven pieces with a number in the fifth, but shorter than "_0_predict_LEv", panic. */
  predicate PredictParseable(id: TaskId) {
    var ss := Split(id);
    |ss| == 7 && ParseInt(ss[4], INT32).Some? ==> |id| >= |"_0_predict_LEv"|
  }

  /** Whether a prediction task is from an evaluation, and what then to validate. */
  function PredictOrigin(id: TaskId): Option<Validation>
    requires PredictParseable(id)
  {
    var ss := Split(id);
    if |ss| == 4 then
      var k := ParseInt(ss[1], INT32);
      if k.None? then None else Some(Validation(ss[0], k.value, ss[3] != "Eva"))
    else if |ss| == 7 then
      var k := ParseInt(ss[4], INT32);
      if k.None? then None
      else Some(Validation(id[..|id| - |"_0_predict_LEv"|], k.value, true))
    else None
  }

  /** The fold an evaluator reads from the ID of a training result. */
  function TrainFold(id: TaskId): Option<int> {
    var ss := SplitN(id, 3);
    if |ss| < 3 then None else ParseInt(ss[1], INT64)
  }

  /** The fold the evaluator of task `own` reads from the ID of a prediction. */
  function PredictFold(own: TaskId, id: TaskId): Option<int> {
    var ss := SplitN(id, 3);
    if |ss| < 3 || ss[0] != own then None else ParseInt(ss[1], INT64)
  }

  // ---------------------------------------------------------------- round trips

  function Join(ss: seq<string>): string
    requires ss != []
  {
    if |ss| == 1 then ss[0] else ss[0] + "_" + Join(ss[1..])
  }

  lemma {:induction false} SplitJoin(ss: seq<string>)
    requires ss != [] && forall s :: s in ss ==> '_' !in s
    ensures Split(Join(ss)) == ss
  {
    assert ss[0] in ss;
    if |ss| == 1 {
      SplitWord(ss[0]);
    } else {
      SplitJoin(ss[1..]);
      SplitFirst(ss[0], Join(ss[1..]));
    }
  }

  lemma JoinFour(a: string, b: string, c: string, d: string)
    ensures Join([a, b, c, d]) == a + "_" + b + "_" + c + "_" + d
  {
    assert [a, b, c, d][1..] == [b, c, d] && [b, c, d][1..] == [c, d] && [c, d][1..] == [d];
    assert Join([c, d]) == c + "_" + d;
    assert Join([b, c, d]) == b + "_" + (c + "_" + d);
  }

  lemma {:induction false} JoinTwice(ss: seq<string>, ts: seq<string>)
    requires ss != [] && ts != []
    ensures Join(ss + ts) == Join(ss) + "_" + Join(ts)
  {
    if |ss| == 1 {
      assert (ss + ts)[1..] == ts;
    } else {
      JoinTwice(ss[1..], ts);
      assert (ss + ts)[1..] == ss[1..] + ts;
      assert ss[0] + "_" + (Join(ss[1..]) + "_" + Join(ts)) == ss[0] + "_" + Join(ss[1..]) + "_" + Join(ts);
    }
  }

  lemma {:induction false} ThreePieces(id: TaskId, k: nat, rest: string)
    requires '_' !in id
    ensures SplitN(id + "_" + Itoa(k) + "_" + rest, 3) == [id, Itoa(k), rest]
    ensures SplitN(id + "_" + Itoa(k) + "_" + rest, 2)[0] == id
  {
    var tail := Itoa(k) + "_" + rest;
    assert id + "_" + Itoa(k) + "_" + rest == id + "_" + tail;
    SplitNFirst(id, tail, 3);
    SplitNFirst(id, tail, 2);
    SplitNFirst(Itoa(k), rest, 2);
  }

  /** Every ID a node meets: a user's, or one built by an evaluator of either kind. */
  datatype Shape =
    | Plain(id: TaskId)
    | Train(id: TaskId, k: nat)
    | Predict(id: TaskId, k: nat)
    | LiveTrain(id: TaskId)
    | LivePredict(id: TaskId)
    | NestedTrain(id: TaskId, k: nat)      // the live evaluation of a fold's training
    | NestedPredict(id: TaskId, k: nat)

  function Written(s: Shape): TaskId {
    match s
    case Plain(id) => id
    case Train(id, k) => EvaTrain(id, k)
    case Predict(id, k) => EvaPredict(id, k)
    case LiveTrain(id) => LivTrain(id)
    case LivePredict(id) => LivPredict(id)
    case NestedTrain(id, k) => LivTrain(EvaTrain(id, k))
    case NestedPredict(id, k) => LivPredict(EvaTrain(id, k))
  }

  function Pieces(s: Shape): seq<string> {
    match s
    case Plain(id) => [id]
    case Train(id, k) => [id, Itoa(k), "train", "Eva"]
    case Predict(id, k) => [id, Itoa(k), "predict", "Eva"]
    case LiveTrain(id) => [id, Itoa(0), "train", "LEv"]
    case LivePredict(id) => [id, Itoa(0), "predict", "LEv"]
    case NestedTrain(id, k) => [id, Itoa(k), "train", "Eva", Itoa(0), "train", "LEv"]
    case NestedPredict(id, k) => [id, Itoa(k), "train", "Eva", Itoa(0), "predict", "LEv"]
  }

  lemma {:induction false} EvaTrainJoined(id: TaskId, k: nat)
    ensures EvaTrain(id, k) == Join([id, Itoa(k), "train", "Eva"])
  {
    JoinFour(id, Itoa(k), "train", "Eva");
    assert "train" + "_" + "Eva" == "train_Eva" && "_train_Eva" == "_" + ("train" + "_" + "Eva");
  }

  lemma {:induction false} EvaPredictJoined(id: TaskId, k: nat)
    ensures EvaPredict(id, k) == Join([id, Itoa(k), "predict", "Eva"])
  {
    JoinFour(id, Itoa(k), "predict", "Eva");
    assert "predict" + "_" + "Eva" == "predict_Eva";
  }

  lemma LivTrainJoined(id: TaskId)
    ensures LivTrain(id) == id + "_" + Join([Itoa(0), "train", "LEv"]) == id + "_0_train_LEv"
  {
    assert [Itoa(0), "train", "LEv"][1..] == ["train", "LEv"] && ["train", "LEv"][1..] == ["LEv"];
    assert Join(["train", "LEv"]) == "train_LEv";
  }

  lemma LivPredictJoined(id: TaskId)
    ensures LivPredict(id) == id + "_" + Join([Itoa(0), "predict", "LEv"]) == id + "_0_predict_LEv"
  {
    assert [Itoa(0), "predict", "LEv"][1..] == ["predict", "LEv"] && ["predict", "LEv"][1..] == ["LEv"];
    assert Join(["predict", "LEv"]) == "predict_LEv";
  }

  lemma WrittenJoined(s: Shape)
    ensures Written(s) == Join(Pieces(s))
  {
    match s
    case Plain(_) =>
    case Train(id, k) => EvaTrainJoined(id, k);
    case Predict(id, k) => EvaPredictJoined(id, k);
    case LiveTrain(id) =>
      LivTrainJoined(id);
      JoinTwice([id], [Itoa(0), "train", "LEv"]);
    case LivePredict(id) =>
      LivPredictJoined(id);
      JoinTwice([id], [Itoa(0), "predict", "LEv"]);
    case NestedTrain(id, k) =>
      EvaTrainJoined(id, k);
      LivTrainJoined(EvaTrain(id, k));
      JoinTwice([id, Itoa(k), "train", "Eva"], [Itoa(0), "train", "LEv"]);
      assert Pieces(s) == [id, Itoa(k), "train", "Eva"] + [Itoa(0), "train", "LEv"];
    case NestedPredict(id, k) =>
      EvaTrainJoined(id, k);
      LivPredictJoined(EvaTrain(id, k));
      JoinTwice([id, Itoa(k), "train", "Eva"], [Itoa(0), "predict", "LEv"]);
      assert Pieces(s) == [id, Itoa(k), "train", "Eva"] + [Itoa(0), "predict", "LEv"];
  }

  lemma WrittenInPieces(s: Shape)
    requires '_' !in s.id
    ensures Split(Written(s)) == Pieces(s)
  {
    WrittenJoined(s);
    SplitJoin(Pieces(s));
  }

  /** No two shapes share an ID, and neither do two sources or two folds. */
  lemma WrittenInjective(a: Shape, b: Shape)
    requires '_' !in a.id && '_' !in b.id && Written(a) == Written(b)
    ensures a == b
  {
    WrittenInPieces(a);
    WrittenInPieces(b);
    assert Pieces(a) == Pieces(b);
    assert |Pieces(a)| >= 4 ==> Pieces(a)[2] == Pieces(b)[2] && Pieces(a)[3] == Pieces(b)[3];
    assert |Pieces(a)| == 7 ==> Pieces(a)[5] == Pieces(b)[5];
    assert |Pieces(a)| >= 4 ==> Pieces(a)[1] == Pieces(b)[1];
    if (a.Train? || a.Predict? || a.NestedTrain? || a.NestedPredict?) && a.Train? == b.Train? {
      DigitsItoa(a.k);
      DigitsItoa(b.k);
    }
  }

  /** Where the result of a training task of each shape goes. */
  function TrainRoute(s: Shape): Origin {
    match s
    case Train(id, _) => FromEvaluator(id)
    case LiveTrain(id) => FromLive(id)
    case NestedTrain(id, k) => FromLive(EvaTrain(id, k))
    case _ => FromUser
  }

  lemma EndOf(a: string, b: string, n: nat)
    requires n <= |b|
    ensures (a + b)[|a + b| - n..] == b[|b| - n..]
  {
  }

  lemma TrainRoutedBack(id: TaskId, k: nat)
    requires '_' !in id
    ensures Parseable(EvaTrain(id, k)) && TrainOrigin(EvaTrain(id, k)) == FromEvaluator(id)
    ensures TrainFold(EvaTrain(id, k)) == if k < INT64 then Some(k) else None
  {
    assert EvaTrain(id, k) == id + "_" + Itoa(k) + "_" + "train_Eva";
    ThreePieces(id, k, "train_Eva");
    ParseItoa(k, INT64);
    EndOf(id + "_" + Itoa(k), "_train_Eva", 4);
    assert "_train_Eva"[6..] == "_Eva";
  }

  lemma LiveTrainRoutedBack(id: TaskId)
    ensures Parseable(LivTrain(id)) && TrainOrigin(LivTrain(id)) == FromLive(id)
  {
    LivTrainJoined(id);
    EndOf(id, "_0_train_LEv", 4);
    assert "_0_train_LEv"[8..] == "_LEv" != "_Eva";
    assert (id + "_0_train_LEv")[..|id|] == id;
  }

  lemma TrainRouted(s: Shape)
    requires '_' !in s.id && (s.Plain? || s.Train? || s.LiveTrain? || s.NestedTrain?)
    ensures Parseable(Written(s)) && TrainOrigin(Written(s)) == TrainRoute(s)
    ensures s.Train? ==> TrainFold(Written(s)) == if s.k < INT64 then Some(s.k) else None
  {
    match s
    case Plain(id) => assert |id| > 4 ==> id[|id| - 4..][0] in id;
    case Train(id, k) => TrainRoutedBack(id, k);
    case LiveTrain(id) => LiveTrainRoutedBack(id);
    case NestedTrain(id, k) => LiveTrainRoutedBack(EvaTrain(id, k));
  }

  /** What a prediction of each shape validates. */
  function PredictRoute(s: Shape): Option<Validation> {
    match s
    case Predict(id, k) => if k < INT32 then Some(Validation(id, k, false)) else None
    case LivePredict(id) => Some(Validation(id, 0, true))
    case NestedPredict(id, k) => Some(Validation(EvaTrain(id, k), 0, true))
    case _ => None
  }

  lemma PredictRoutedBack(id: TaskId, k: nat)
    requires '_' !in id
    ensures PredictFold(id, EvaPredict(id, k)) == if k < INT64 then Some(k) else None
  {
    assert EvaPredict(id, k) == id + "_" + Itoa(k) + "_" + "predict_Eva";
    ThreePieces(id, k, "predict_Eva");
    ParseItoa(k, INT64);
  }

  lemma LivePredictCut(id: TaskId)
    ensures |LivPredict(id)| >= |"_0_predict_LEv"|
    ensures LivPredict(id)[..|LivPredict(id)| - |"_0_predict_LEv"|] == id
  {
    LivPredictJoined(id);
    assert (id + "_0_predict_LEv")[..|id|] == id;
  }

  lemma PredictRouted(s: Shape)
    requires '_' !in s.id && (s.Plain? || s.Predict? || s.LivePredict? || s.NestedPredict?)
    ensures PredictParseable(Written(s)) && PredictOrigin(Written(s)) == PredictRoute(s)
    ensures s.Predict? ==> PredictFold(s.id, Written(s)) == if s.k < INT64 then Some(s.k) else None
  {
    WrittenInPieces(s);
    ParseItoa(0, INT32);
    match s
    case Plain(id) =>
    case Predict(id, k) =>
      PredictRoutedBack(id, k);
      ParseItoa(k, INT32);
      OriginOfFour(Written(s), id, Itoa(k), "predict", "Eva");
    case LivePredict(id) => OriginOfFour(Written(s), id, Itoa(0), "predict", "LEv");
    case NestedPredict(id, k) =>
      LivePredictCut(EvaTrain(id, k));
      assert Split(Written(s))[4] == Itoa(0);
  }

  lemma {:induction false} OriginOfFour(w: TaskId, a: string, b: string, c: string, d: string)
    requires Split(w) == [a, b, c, d]
    ensures PredictParseable(w)
    ensures PredictOrigin(w) == if ParseInt(b, INT32).None? then None
                                else Some(Validation(a, ParseInt(b, INT32).value, d != "Eva"))
  {
  }

  /** A fold's model comes back to its evaluator exactly when its source has no underscore. */
  lemma NeedsNoUnderscore(id: TaskId, k: nat)
    ensures Parseable(EvaTrain(id, k))
    ensures TrainOrigin(EvaTrain(id, k)) == FromEvaluator(id) <==> '_' !in id
  {
    EndOf(id + "_" + Itoa(k), "_train_Eva", 4);
    assert "_train_Eva"[6..] == "_Eva";
    if '_' !in id {
      TrainRoutedBack(id, k);
    } else {
      FirstPiece(EvaTrain(id, k), 2);
    }
  }
}
