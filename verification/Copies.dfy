/** Slices, their encrypted copies on nodes, and counting them. */
module Copies {
  import opened Sequences

  type SliceId = nat  // a uuid
  type NodeId = nat   // a public key

  datatype Copy = Copy(slice: SliceId, node: NodeId)
  datatype Located = Located(slice: SliceId, nodes: seq<NodeId>)

  /** The contract of node selection: `replica` different candidates, in any order. */
  predicate Selectable(candidates: seq<NodeId>, replica: nat, nodes: seq<NodeId>) {
    && |nodes| == replica
    && (forall i, j :: 0 <= i < j < |nodes| ==> nodes[i] != nodes[j])
    && (forall n :: n in nodes ==> n in candidates)
  }

  /**
   The contract of moving twice-failed copies elsewhere: the k-th moved copy is of the
   k-th failed slice and lands on a node that holds no copy of that slice, that has not
   just refused it, and that no earlier move has used for it.
   */
  predicate Relocated(failed: seq<Copy>, finished: seq<Copy>, moved: seq<Copy>) {
    && |moved| == |failed|
    && (forall k :: 0 <= k < |moved| ==>
          moved[k].slice == failed[k].slice && moved[k] !in finished)
    && (forall j, k :: 0 <= j < k < |moved| ==> moved[j] != moved[k])
  }

  // ---------------------------------------------------------------- the copies of a slice

  function Pairs(x: SliceId, nodes: seq<NodeId>): (cs: seq<Copy>)
    ensures |cs| == |nodes| && forall k :: 0 <= k < |nodes| ==> cs[k] == Copy(x, nodes[k])
  {
    if nodes == [] then [] else [Copy(x, nodes[0])] + Pairs(x, nodes[1..])
  }

  function Flat(ls: seq<Located>): seq<Copy> {
    if ls == [] then [] else Flat(ls[..|ls| - 1]) + Pairs(ls[|ls| - 1].slice, ls[|ls| - 1].nodes)
  }

  function SlicesOf(ls: seq<Located>): (xs: seq<SliceId>)
    ensures |xs| == |ls| && forall k :: 0 <= k < |ls| ==> xs[k] == ls[k].slice
  {
    if ls == [] then [] else SlicesOf(ls[..|ls| - 1]) + [ls[|ls| - 1].slice]
  }

  /** The nodes that hold slice `x`, one entry a copy. */
  function NodesOf(cs: seq<Copy>, x: SliceId): seq<NodeId> {
    if cs == [] then [] else (if cs[0].slice == x then [cs[0].node] else []) + NodesOf(cs[1..], x)
  }

  /** Every slice of the file is on `replica` nodes, all different, and nothing else is stored. */
  ghost predicate Placed(cs: seq<Copy>, file: seq<SliceId>, replica: nat) {
    && (forall x :: x in file ==> |NodesOf(cs, x)| == replica && Distinct(NodesOf(cs, x)))
    && (forall c :: c in cs ==> c.slice in file)
  }

  lemma {:induction false} NodesOfConcat(a: seq<Copy>, b: seq<Copy>, x: SliceId)
    ensures NodesOf(a + b, x) == NodesOf(a, x) + NodesOf(b, x)
  {
    if a == [] {
      assert a + b == b;
    } else {
      assert (a + b)[1..] == a[1..] + b;
      NodesOfConcat(a[1..], b, x);
    }
  }

  lemma {:induction false} NodesOfPermutes(a: seq<Copy>, b: seq<Copy>, x: SliceId)
    requires multiset(a) == multiset(b)
    ensures |NodesOf(a, x)| == |NodesOf(b, x)|
  {
    if a == [] {
      assert |b| == |multiset(b)|;
    } else {
      assert a[0] in multiset(b);
      var i :| 0 <= i < |b| && b[i] == a[0];
      FirstOut(a);
      OneOut(b, i);
      assert multiset(a[1..]) == multiset(a) - multiset{a[0]};
      NodesOfPermutes(a[1..], b[..i] + b[i + 1..], x);
      NodesOfRemove(b, i, x);
    }
  }

  lemma {:induction false} NodesOfRemove(b: seq<Copy>, i: nat, x: SliceId)
    requires i < |b|
    ensures |NodesOf(b, x)| == |NodesOf(b[..i] + b[i + 1..], x)| + if b[i].slice == x then 1 else 0
  {
    var tail := b[i..];
    assert tail[1..] == b[i + 1..] && b == b[..i] + tail;
    NodesOfConcat(b[..i], b[i + 1..], x);
    NodesOfConcat(b[..i], tail, x);
  }

  /** Different copies of one slice are on different nodes. */
  lemma {:induction false} DistinctNodes(cs: seq<Copy>, x: SliceId)
    requires Distinct(cs)
    ensures Distinct(NodesOf(cs, x))
    ensures forall n :: n in NodesOf(cs, x) <==> Copy(x, n) in cs
  {
    if cs != [] {
      var rest := cs[1..];
      assert cs == [cs[0]] + rest;
      assert cs[0] !in rest;
      DistinctNodes(rest, x);
      assert cs[0].slice == x ==> cs[0] == Copy(x, cs[0].node);
    }
  }

  lemma {:induction false} PairsNodes(x: SliceId, nodes: seq<NodeId>, y: SliceId)
    ensures NodesOf(Pairs(x, nodes), y) == if x == y then nodes else []
  {
    if nodes != [] {
      PairsNodes(x, nodes[1..], y);
      assert Pairs(x, nodes)[1..] == Pairs(x, nodes[1..]);
    }
  }

  /** Located slices that differ from one another hold each slice on exactly its own nodes. */
  lemma {:induction false} FlatNodes(ls: seq<Located>, replica: nat, x: SliceId)
    requires Distinct(SlicesOf(ls)) && forall l :: l in ls ==> |l.nodes| == replica
    ensures |NodesOf(Flat(ls), x)| == if x in SlicesOf(ls) then replica else 0
  {
    if ls != [] {
      var n := |ls| - 1;
      var init, last := ls[..n], ls[n];
      assert SlicesOf(ls)[..n] == SlicesOf(init);
      assert forall i, j :: 0 <= i < j < n ==> SlicesOf(ls)[..n][i] != SlicesOf(ls)[..n][j];
      assert last in ls;
      FlatNodes(init, replica, x);
      PairsNodes(last.slice, last.nodes, x);
      NodesOfConcat(Flat(init), Pairs(last.slice, last.nodes), x);
      assert SlicesOf(ls) == SlicesOf(init) + [last.slice];
    }
  }

  lemma {:induction false} InFlat(ls: seq<Located>, c: Copy)
    requires c in Flat(ls)
    ensures exists l :: l in ls && l.slice == c.slice && c.node in l.nodes
  {
    var n := |ls| - 1;
    if c in Flat(ls[..n]) {
      InFlat(ls[..n], c);
    } else {
      var k :| 0 <= k < |ls[n].nodes| && Pairs(ls[n].slice, ls[n].nodes)[k] == c;
      assert ls[n] in ls;
    }
  }

  lemma {:induction false} FlatDistinct(ls: seq<Located>)
    requires Distinct(SlicesOf(ls)) && forall l :: l in ls ==> Distinct(l.nodes)
    ensures Distinct(Flat(ls))
  {
    if ls != [] {
      var n := |ls| - 1;
      var init, last := ls[..n], ls[n];
      assert SlicesOf(ls) == SlicesOf(init) + [last.slice];
      assert forall i :: 0 <= i < n ==> SlicesOf(init)[i] == SlicesOf(ls)[i];
      FlatDistinct(init);
      var ps := Pairs(last.slice, last.nodes);
      assert last in ls;
      forall i, j | 0 <= i < j < |Flat(ls)| ensures Flat(ls)[i] != Flat(ls)[j] {
        var m := |Flat(init)|;
        if i < m <= j {
          InFlat(init, Flat(init)[i]);
          var l :| l in init && l.slice == Flat(init)[i].slice;
          var k :| 0 <= k < |init| && init[k] == l;
          assert SlicesOf(ls)[k] != SlicesOf(ls)[n];
          assert Flat(ls)[j] == ps[j - m];
        } else if i >= m {
          assert Flat(ls)[i] == ps[i - m] && Flat(ls)[j] == ps[j - m];
        }
      }
    }
  }

  lemma {:induction false} FlatAppend(ls: seq<Located>, l: Located)
    ensures Flat(ls + [l]) == Flat(ls) + Pairs(l.slice, l.nodes)
    ensures SlicesOf(ls + [l]) == SlicesOf(ls) + [l.slice]
  {
    assert (ls + [l])[..|ls|] == ls;
  }

  lemma Associative<T>(x: seq<T>, y: seq<T>, z: seq<T>)
    ensures (x + y) + z == x + (y + z)
  {
  }

  lemma {:induction false} FlatConcat(a: seq<Located>, b: seq<Located>)
    ensures Flat(a + b) == Flat(a) + Flat(b)
    decreases |b|
  {
    if b == [] {
      assert a + b == a;
    } else {
      var n := |b| - 1;
      var init, last := b[..n], b[n];
      var p := Pairs(last.slice, last.nodes);
      FlatConcat(a, init);
      assert Flat(a + b) == Flat(a + init) + p by {
        assert (a + b)[..|a| + n] == a + init && (a + b)[|a| + n] == last;
      }
      assert Flat(b) == Flat(init) + p;
      Associative(Flat(a), Flat(init), p);
    }
  }

  lemma {:induction false} FlatSplit(a: seq<Located>, l: Located, b: seq<Located>)
    ensures multiset(Flat(a + [l] + b)) == multiset(Flat(a + b)) + multiset(Pairs(l.slice, l.nodes))
  {
    FlatConcat(a, b);
    FlatAppend(a, l);
    FlatConcat(a + [l], b);
    var x, y, z := Flat(a), Pairs(l.slice, l.nodes), Flat(b);
    ConcatMultiset(x, y);
    ConcatMultiset(x + y, z);
    ConcatMultiset(x, z);
  }

  lemma {:induction false} FlatRemove(ls: seq<Located>, i: nat)
    requires i < |ls|
    ensures multiset(Flat(ls)) ==
            multiset(Flat(ls[..i] + ls[i + 1..])) + multiset(Pairs(ls[i].slice, ls[i].nodes))
  {
    FlatSplit(ls[..i], ls[i], ls[i + 1..]);
    SplitAt(ls, i);
  }

  lemma SplitAt<T>(s: seq<T>, i: nat)
    requires i < |s|
    ensures s[..i] + [s[i]] + s[i + 1..] == s
  {
  }

  lemma ConcatMultiset<T>(a: seq<T>, b: seq<T>)
    ensures multiset(a + b) == multiset(a) + multiset(b)
  {
  }

  /**
   The heart of the placement argument: copies that were selected one by one for distinct
   slices, split into those that arrived and those that did not, are a full placement again
   once the latter have been moved.
   */
  lemma {:induction false} MovedPlacement(file: seq<SliceId>, replica: nat, selected: seq<Located>,
                       finished: seq<Copy>, failed: seq<Copy>, moved: seq<Copy>)
    requires Distinct(file) && multiset(SlicesOf(selected)) == multiset(file)
    requires forall l :: l in selected ==> |l.nodes| == replica && Distinct(l.nodes)
    requires multiset(finished) + multiset(failed) == multiset(Flat(selected))
    requires Relocated(failed, finished, moved)
    ensures Placed(finished + moved, file, replica)
  {
    DistinctPermutes(file, SlicesOf(selected));
    FlatDistinct(selected);
    assert multiset(finished + failed) == multiset(Flat(selected));
    DistinctPermutes(Flat(selected), finished + failed);
    assert forall i :: 0 <= i < |finished| ==> finished[i] == (finished + failed)[i];
    assert Distinct(finished);
    MovedDistinct(failed, finished, moved);
    forall x | x in file
      ensures |NodesOf(finished + moved, x)| == replica && Distinct(NodesOf(finished + moved, x))
    {
      DistinctNodes(finished + moved, x);
      assert x in multiset(SlicesOf(selected));
      FlatNodes(selected, replica, x);
      NodesOfPermutes(finished + failed, Flat(selected), x);
      NodesOfConcat(finished, failed, x);
      NodesOfConcat(finished, moved, x);
      SameSlices(failed, moved, x);
    }
    forall c | c in finished + moved ensures c.slice in file {
      MovedFrom(failed, finished, moved, c);
      var d :| d in finished + failed && d.slice == c.slice;
      assert d in multiset(finished + failed);
      InFlat(selected, d);
      var l :| l in selected && l.slice == d.slice;
      var k :| 0 <= k < |selected| && selected[k] == l;
      assert SlicesOf(selected)[k] in multiset(SlicesOf(selected));
    }
  }

  lemma MovedFrom(failed: seq<Copy>, finished: seq<Copy>, moved: seq<Copy>, c: Copy)
    requires Relocated(failed, finished, moved) && c in finished + moved
    ensures exists d :: d in finished + failed && d.slice == c.slice
  {
    if c in finished {
      assert c in finished + failed;
    } else {
      var k :| 0 <= k < |moved| && moved[k] == c;
      assert failed[k] in finished + failed;
    }
  }

  lemma MovedDistinct(failed: seq<Copy>, finished: seq<Copy>, moved: seq<Copy>)
    requires Relocated(failed, finished, moved) && Distinct(finished)
    ensures Distinct(finished + moved)
  {
    var all := finished + moved;
    forall i, j | 0 <= i < j < |all| ensures all[i] != all[j] {
      if i < |finished| <= j {
        assert finished[i] in finished && moved[j - |finished|] !in finished;
      }
    }
  }

  lemma {:induction false} SameSlices(a: seq<Copy>, b: seq<Copy>, x: SliceId)
    requires |a| == |b| && forall k :: 0 <= k < |a| ==> a[k].slice == b[k].slice
    ensures |NodesOf(a, x)| == |NodesOf(b, x)|
  {
    if a != [] {
      SameSlices(a[1..], b[1..], x);
    }
  }
}
