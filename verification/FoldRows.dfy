/**
 Row numbers as sample IDs in the evaluation of a model, and putting predictions back
 into the order of the validation set.
 */
module FoldRows {
  import opened Wrappers
  import opened TaskIds

  type Row = seq<string>

  /** The file with row numbers for IDs, which alignment had removed. */
  ghost function Rebuilt(f: seq<Row>, idName: string): (r: seq<Row>)
    ensures |r| == |f|
    ensures forall i :: 0 <= i < |f| ==> r[i] == [if i == 0 then idName else Itoa(i)] + f[i]
  {
    seq(|f|, i requires 0 <= i < |f| => [if i == 0 then idName else Itoa(i)] + f[i])
  }

  method RebuildFile(f: seq<Row>, idName: string) returns (r: seq<Row>)
    ensures r == Rebuilt(f, idName)
  {
    r := [];
    for i := 0 to |f|
      invariant |r| == i
      invariant forall k :: 0 <= k < i ==> r[k] == [if k == 0 then idName else Itoa(k)] + f[k]
    {
      r := r + [[if i == 0 then idName else Itoa(i)] + f[i]];
    }
  }

  /** Removes the first column; a row without one panics. */
  method RemoveIds(f: seq<Row>) returns (r: seq<Row>)
    requires forall i :: 0 <= i < |f| ==> f[i] != []
    ensures |r| == |f| && forall i :: 0 <= i < |f| ==> r[i] == f[i][1..]
  {
    r := [];
    for i := 0 to |f|
      invariant |r| == i && forall k :: 0 <= k < i ==> r[k] == f[k][1..]
    {
      r := r + [f[i][1..]];
    }
  }

  lemma {:induction false} ItoaInjective(m: nat, n: nat)
    requires Itoa(m) == Itoa(n)
    ensures m == n
  {
    DigitsItoa(m);
    DigitsItoa(n);
  }

  /** The IDs are all different, whatever the rows; and whichever rows a split or shuffle picks,
      removing the IDs gives back exactly those rows of the file. */
  lemma NumberedRows(f: seq<Row>, idName: string, order: seq<nat>, picked: seq<Row>, bare: seq<Row>)
    requires forall k :: 0 <= k < |order| ==> order[k] < |f|
    requires |picked| == |order| && forall k :: 0 <= k < |order| ==> picked[k] == Rebuilt(f, idName)[order[k]]
    requires |bare| == |picked| && forall k :: 0 <= k < |picked| ==> picked[k] != [] && bare[k] == picked[k][1..]
    ensures forall k :: 0 <= k < |order| ==> bare[k] == f[order[k]]
    ensures forall i, j :: 0 < i < j < |f| ==> Rebuilt(f, idName)[i][0] != Rebuilt(f, idName)[j][0]
  {
    var r := Rebuilt(f, idName);
    forall i, j | 0 < i < j < |f| ensures r[i][0] != r[j][0] {
      if Itoa(i) == Itoa(j) { ItoaInjective(i, j); }
    }
  }

  // ---------------------------------------------------------------- predictions

  datatype AlignError = TooFewPredictions | NotANumber | TooFewSamples | NoIds

  /** The first column of that name. */
  function IdIndex(header: Row, idName: string): (r: Option<nat>)
    ensures r.Some? ==> r.value < |header| && header[r.value] == idName && idName !in header[..r.value]
    ensures r.None? ==> idName !in header
  {
    if header == [] then None
    else if header[0] == idName then Some(0)
    else
      var r := IdIndex(header[1..], idName);
      assert header == [header[0]] + header[1..];
      assert r.Some? ==> header[..r.value + 1] == [header[0]] + header[1..][..r.value];
      if r.None? then None else Some(r.value + 1)
  }

  /** Row `k` is the last prediction for that ID. */
  ghost predicate LastPrediction(pred: seq<Row>, n: nat, id: string, k: nat)
    requires n <= |pred| && forall i :: 0 <= i < |pred| ==> |pred[i]| >= 2
  {
    1 <= k < n && pred[k][0] == id && forall j :: k < j < n ==> pred[j][0] != id
  }

  predicate Numbers(pred: seq<Row>, parse: string -> Option<real>)
    requires forall i :: 0 <= i < |pred| ==> |pred[i]| >= 2
  {
    forall i :: 1 <= i < |pred| ==> parse(pred[i][1]).Some?
  }

  predicate Predicted(pred: seq<Row>, n: nat, id: string)
    requires n <= |pred| && forall i :: 0 <= i < |pred| ==> |pred[i]| >= 2
  {
    exists k :: 1 <= k < n && pred[k][0] == id
  }

  /** `v` is the last value predicted for the ID, or 0 if there is none. */
  ghost predicate IsPrediction(v: real, pred: seq<Row>, n: nat, id: string, parse: string -> Option<real>)
    requires n <= |pred| && forall i :: 0 <= i < |pred| ==> |pred[i]| >= 2
  {
    && (forall k: nat :: LastPrediction(pred, n, id, k) ==> parse(pred[k][1]) == Some(v))
    && (!Predicted(pred, n, id) ==> v == 0.0)
  }

  ghost predicate Aligned(y: seq<real>, pred: seq<Row>, valid: seq<Row>, col: nat, parse: string -> Option<real>)
    requires forall i :: 0 <= i < |pred| ==> |pred[i]| >= 2
    requires forall i :: 0 <= i < |valid| ==> col < |valid[i]|
  {
    && |y| == |valid| - 1
    && forall i :: 0 <= i < |y| ==> IsPrediction(y[i], pred, |pred|, valid[i + 1][col], parse)
  }

  function Lookup(m: map<string, real>, id: string): real { if id in m then m[id] else 0.0 }

  /** What was predicted for the samples, in the order of the validation set; 0 where nothing was. */
  method AlignPredictions(pred: seq<Row>, valid: seq<Row>, idName: string, parse: string -> Option<real>)
    returns (r: Result<seq<real>, AlignError>)
    requires forall i :: 0 <= i < |pred| ==> |pred[i]| >= 2
    requires forall i :: 0 <= i < |valid| ==> |valid[i]| == |valid[0]|
    ensures r.Success? <==>
      |pred| > 1 && Numbers(pred, parse) && |valid| > 1 && IdIndex(valid[0], idName).Some?
    ensures |pred| <= 1 ==> r == Failure(TooFewPredictions)
    ensures |pred| > 1 && !Numbers(pred, parse) ==> r == Failure(NotANumber)
    ensures |pred| > 1 && Numbers(pred, parse) && |valid| <= 1 ==> r == Failure(TooFewSamples)
    ensures r.Success? ==> Aligned(r.value, pred, valid, IdIndex(valid[0], idName).value, parse)
  {
    if |pred| <= 1 { return Failure(TooFewPredictions); }
    var predMap: map<string, real> := map[];
    for i := 1 to |pred|
      invariant forall j :: 1 <= j < i ==> parse(pred[j][1]).Some?
      invariant forall id :: id in predMap <==> Predicted(pred, i, id)
      invariant forall id :: IsPrediction(Lookup(predMap, id), pred, i, id, parse)
    {
      var value := parse(pred[i][1]);
      if value.None? { return Failure(NotANumber); }
      ghost var was := predMap;
      predMap := predMap[pred[i][0] := value.value];
      forall id
        ensures id in predMap <==> Predicted(pred, i + 1, id)
        ensures IsPrediction(Lookup(predMap, id), pred, i + 1, id, parse)
      {
        OneMore(was, predMap, pred, i, id, parse);
      }
    }
    if |valid| <= 1 { return Failure(TooFewSamples); }
    var idIdx := IdIndex(valid[0], idName);
    if idIdx.None? { return Failure(NoIds); }
    var yPreds := [];
    for i := 1 to |valid|
      invariant |yPreds| == i - 1
      invariant forall j :: 0 <= j < i - 1 ==> yPreds[j] == Lookup(predMap, valid[j + 1][idIdx.value])
    {
      yPreds := yPreds + [Lookup(predMap, valid[i][idIdx.value])];
    }
    return Success(yPreds);
  }

  lemma OneMore(was: map<string, real>, now: map<string, real>, pred: seq<Row>, i: nat, id: string,
                                   parse: string -> Option<real>)
    requires 1 <= i < |pred| && forall k :: 0 <= k < |pred| ==> |pred[k]| >= 2
    requires parse(pred[i][1]).Some? && now == was[pred[i][0] := parse(pred[i][1]).value]
    requires id in was <==> Predicted(pred, i, id)
    requires IsPrediction(Lookup(was, id), pred, i, id, parse)
    ensures id in now <==> Predicted(pred, i + 1, id)
    ensures IsPrediction(Lookup(now, id), pred, i + 1, id, parse)
  {
    forall k: nat | LastPrediction(pred, i + 1, id, k) ensures parse(pred[k][1]) == Some(Lookup(now, id)) {
      if k < i { assert LastPrediction(pred, i, id, k); }
    }
    assert Predicted(pred, i + 1, id) <==> Predicted(pred, i, id) || pred[i][0] == id;
  }

  /** Some prediction says that row `n` has the value `value(n)`. */
  ghost predicate Says(pred: seq<Row>, parse: string -> Option<real>, value: nat -> real, n: nat, k: nat)
    requires forall i :: 0 <= i < |pred| ==> |pred[i]| >= 2
  {
    1 <= k < |pred| && pred[k][0] == Itoa(n) && parse(pred[k][1]) == Some(value(n))
  }

  ghost predicate Covered(pred: seq<Row>, parse: string -> Option<real>, value: nat -> real, n: nat)
    requires forall i :: 0 <= i < |pred| ==> |pred[i]| >= 2
  {
    exists k: nat :: Says(pred, parse, value, n, k)
  }

  ghost predicate OfTheFile(pred: seq<Row>, parse: string -> Option<real>, value: nat -> real, k: nat)
    requires forall i :: 0 <= i < |pred| ==> |pred[i]| >= 2
  {
    exists n: nat :: Says(pred, parse, value, n, k)
  }

  lemma {:induction false} LastExists(pred: seq<Row>, id: string, k: nat)
    requires forall i :: 0 <= i < |pred| ==> |pred[i]| >= 2
    requires 1 <= k < |pred| && pred[k][0] == id
    ensures exists l: nat :: LastPrediction(pred, |pred|, id, l)
    decreases |pred| - k
  {
    if j :| k < j < |pred| && pred[j][0] == id {
      LastExists(pred, id, j);
    } else {
      assert LastPrediction(pred, |pred|, id, k);
    }
  }

  /** However the fold was picked and whatever the order of the predictions: the validator gets,
      position by position, the predictions for the rows of its validation set. */
  lemma {:induction false} PredictionsMatchRows(
    f: seq<Row>, idName: string, order: seq<nat>, valid: seq<Row>, pred: seq<Row>,
    parse: string -> Option<real>, value: nat -> real, y: seq<real>)
    requires |f| > 0 && forall k :: 0 <= k < |order| ==> 1 <= order[k] < |f|
    requires |valid| == |order| + 1 && valid[0] == Rebuilt(f, idName)[0]
    requires forall k :: 0 <= k < |order| ==> valid[k + 1] == Rebuilt(f, idName)[order[k]]
    requires forall i :: 0 <= i < |pred| ==> |pred[i]| >= 2
    // the predictions cover the fold, and are all of rows of the file
    requires forall k :: 0 <= k < |order| ==> Covered(pred, parse, value, order[k])
    requires forall k: nat :: 1 <= k < |pred| ==> OfTheFile(pred, parse, value, k)
    requires forall i :: 0 <= i < |valid| ==> |valid[i]| >= 1
    requires Aligned(y, pred, valid, 0, parse)
    ensures IdIndex(valid[0], idName) == Some(0)
    ensures |y| == |order| && forall k :: 0 <= k < |order| ==> y[k] == value(order[k])
  {
    forall k | 0 <= k < |order| ensures y[k] == value(order[k]) {
      var id := Itoa(order[k]);
      assert valid[k + 1][0] == id;
      var j: nat :| Says(pred, parse, value, order[k], j);
      LastExists(pred, id, j);
      var l: nat :| LastPrediction(pred, |pred|, id, l);
      assert OfTheFile(pred, parse, value, l);
      var n: nat :| Says(pred, parse, value, n, l);
      ItoaInjective(n, order[k]);
    }
  }
}
