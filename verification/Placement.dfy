/** Choosing other nodes for copies whose pushes have failed twice, and pushing them there. */
module Placement {
  import opened Wrappers
  import opened Copies
  import opened Sequences
  import opened Crypto

  datatype Health = Green | Yellow | Red
  datatype NodeH = NodeH(id: NodeId, health: Health)

  datatype PlacementError = NoMoreNodes | DecryptFailed | PushFailed

  // ---------------------------------------------------------------- random order

  /** Puts the nodes in random order by as many random swaps as there are nodes. */
  method RearrangeNodes(nodes: array<NodeId>)
    modifies nodes
    ensures multiset(nodes[..]) == multiset(old(nodes[..]))
  {
    var num := nodes.Length;
    for i := 0 to num
      invariant multiset(nodes[..]) == multiset(old(nodes[..]))
    {
      var j: nat :| j < num;
      var k: nat :| k < num;
      ghost var before := nodes[..];
      nodes[j], nodes[k] := nodes[k], nodes[j];
      assert nodes[..] == before[j := before[k]][k := before[j]];
      SwapKeepsMultiset(before, j, k);
    }
  }

  method Shuffled(nodes: seq<NodeId>) returns (r: seq<NodeId>)
    ensures multiset(r) == multiset(nodes)
  {
    var a := new NodeId[|nodes|](i requires 0 <= i < |nodes| => nodes[i]);
    assert a[..] == nodes;
    RearrangeNodes(a);
    r := a[..];
  }

  /** The nodes of one health that are not selected yet, in the order listed. */
  function Candidates(nodes: seq<NodeH>, selected: seq<NodeId>, health: Health): (r: seq<NodeId>) {
    if nodes == [] then []
    else
      var init, last := nodes[..|nodes| - 1], nodes[|nodes| - 1];
      Candidates(init, selected, health)
      + if last.health == health && last.id !in selected then [last.id] else []
  }

  lemma {:induction false} CandidatesAre(nodes: seq<NodeH>, selected: seq<NodeId>, health: Health, id: NodeId)
    ensures id in Candidates(nodes, selected, health) <==> NodeH(id, health) in nodes && id !in selected
  {
    if nodes != [] {
      CandidatesAre(nodes[..|nodes| - 1], selected, health, id);
      assert nodes == nodes[..|nodes| - 1] + [nodes[|nodes| - 1]];
    }
  }

  /** The list is all candidates of one health in some order, then all of the other. */
  ghost predicate GreenFirst(list: seq<NodeId>, green: seq<NodeId>, yellow: seq<NodeId>) {
    |green| <= |list|
    && multiset(list[..|green|]) == multiset(green) && multiset(list[|green|..]) == multiset(yellow)
  }

  lemma GreenFirstMembers(list: seq<NodeId>, green: seq<NodeId>, yellow: seq<NodeId>, id: NodeId)
    requires GreenFirst(list, green, yellow)
    ensures id in list <==> id in green || id in yellow
  {
    var n := |green|;
    assert list == list[..n] + list[n..];
    assert id in list[..n] <==> id in multiset(list[..n]);
    assert id in green <==> id in multiset(green);
    assert id in list[n..] <==> id in multiset(list[n..]);
    assert id in yellow <==> id in multiset(yellow);
  }

  ghost predicate Healthy(nodes: seq<NodeH>, id: NodeId) {
    NodeH(id, Green) in nodes || NodeH(id, Yellow) in nodes
  }

  lemma {:induction false} CandidatesHealthy(nodes: seq<NodeH>, selected: seq<NodeId>, list: seq<NodeId>)
    requires GreenFirst(list, Candidates(nodes, selected, Green), Candidates(nodes, selected, Yellow))
    ensures forall id :: id in list <==> id !in selected && Healthy(nodes, id)
  {
    forall id ensures id in list <==> id !in selected && Healthy(nodes, id) {
      CandidatesAre(nodes, selected, Green, id);
      CandidatesAre(nodes, selected, Yellow, id);
      GreenFirstMembers(list, Candidates(nodes, selected, Green), Candidates(nodes, selected, Yellow), id);
    }
  }

  /** Selects every healthy node not selected yet, in random order, green ones before yellow ones. */
  method FindNewNodes(nodes: seq<NodeH>, selected: seq<NodeId>) returns (r: Result<seq<NodeId>, PlacementError>)
    ensures r.Failure? <==> forall id :: Healthy(nodes, id) ==> id in selected
    ensures r.Failure? ==> r.error == NoMoreNodes
    ensures r.Success? ==>
              GreenFirst(r.value, Candidates(nodes, selected, Green), Candidates(nodes, selected, Yellow))
    ensures r.Success? ==> forall id :: id in r.value <==> id !in selected && Healthy(nodes, id)
  {
    var green, yellow := [], [];
    for i := 0 to |nodes|
      invariant green == Candidates(nodes[..i], selected, Green)
      invariant yellow == Candidates(nodes[..i], selected, Yellow)
    {
      assert nodes[..i + 1][..i] == nodes[..i];
      var n := nodes[i];
      if n.id in selected { continue; }
      if n.health.Green? { green := green + [n.id]; }
      if n.health.Yellow? { yellow := yellow + [n.id]; }
    }
    assert nodes[..|nodes|] == nodes;
    var g := Shuffled(green);
    var y := Shuffled(yellow);
    var list := g + y;
    assert |g| == |multiset(g)| && |green| == |multiset(green)|;
    assert list[..|g|] == g && list[|g|..] == y;
    CandidatesHealthy(nodes, selected, list);
    if |list| == 0 {
      assert forall id :: id !in list;
      return Failure(NoMoreNodes);
    }
    assert list[0] in list;
    return Success(list);
  }

  // ---------------------------------------------------------------- moving copies elsewhere

  function CopyOf(e: EncryptedSlice): Copy { Copy(e.slice, e.node) }

  function AllCopies(es: seq<EncryptedSlice>): (cs: seq<Copy>)
    ensures |cs| == |es| && forall k :: 0 <= k < |es| ==> cs[k] == CopyOf(es[k])
  {
    seq(|es|, k requires 0 <= k < |es| => CopyOf(es[k]))
  }

  /** Each copy is its slice's plaintext encrypted for its own node. */
  ghost predicate Genuine(suite: Suite, file: FileId, plain: SliceId -> Bytes, es: seq<EncryptedSlice>) {
    forall k :: 0 <= k < |es| ==>
      es[k].cipher == suite.encrypt(SliceKey(file, es[k].slice, es[k].node), plain(es[k].slice))
  }

  function Selected(chosen: map<SliceId, seq<NodeId>>, x: SliceId): seq<NodeId> {
    if x in chosen then chosen[x] else []
  }

  function Select(chosen: map<SliceId, seq<NodeId>>, x: SliceId, n: NodeId): map<SliceId, seq<NodeId>> {
    chosen[x := Selected(chosen, x) + [n]]
  }

  /** Node `n` is out of the question for slice `x`: it holds a copy, it failed twice, or it refused one. */
  ghost predicate Spent(finished: seq<EncryptedSlice>, failed: seq<EncryptedSlice>, moved: seq<EncryptedSlice>,
                        push: Copy -> Option<string>, x: SliceId, n: NodeId) {
    Copy(x, n) in AllCopies(finished) || Copy(x, n) in AllCopies(failed) || Copy(x, n) in AllCopies(moved)
    || push(Copy(x, n)).None?
  }

  /** What `alreadySelected` knows while copies are being moved. */
  ghost predicate Remembers(chosen: map<SliceId, seq<NodeId>>, finished: seq<EncryptedSlice>,
                            failed: seq<EncryptedSlice>, moved: seq<EncryptedSlice>, push: Copy -> Option<string>) {
    && (forall x, n :: n in Selected(chosen, x) ==> Spent(finished, failed, moved, push, x, n))
    && (forall c :: c in AllCopies(finished) ==> c.node in Selected(chosen, c.slice))
    && (forall c :: c in AllCopies(moved) ==> c.node in Selected(chosen, c.slice))
  }

  method Remember(finished: seq<EncryptedSlice>, ghost push: Copy -> Option<string>)
    returns (chosen: map<SliceId, seq<NodeId>>)
    ensures Remembers(chosen, finished, [], [], push)
  {
    chosen := map[];
    for i := 0 to |finished|
      invariant forall x, n :: n in Selected(chosen, x) ==> Copy(x, n) in AllCopies(finished[..i])
      invariant forall c :: c in AllCopies(finished[..i]) ==> c.node in Selected(chosen, c.slice)
    {
      assert AllCopies(finished[..i + 1]) == AllCopies(finished[..i]) + [CopyOf(finished[i])];
      chosen := Select(chosen, finished[i].slice, finished[i].node);
    }
    assert finished[..|finished|] == finished;
  }

  /** `n` is a candidate, and all before it refused the slice. */
  ghost predicate FirstTaker(candidates: seq<NodeId>, push: Copy -> Option<string>, x: SliceId, n: NodeId) {
    exists i :: 0 <= i < |candidates| && candidates[i] == n
                && forall k :: 0 <= k < i ==> push(Copy(x, candidates[k])).None?
  }

  /** At the moment the k-th copy moved, its new node was green, or every green node was spent for its slice. */
  ghost predicate GreenIfAny(finished: seq<EncryptedSlice>, failed: seq<EncryptedSlice>, k: nat,
                             moved: seq<EncryptedSlice>, push: Copy -> Option<string>, nodes: seq<NodeH>, n: NodeId)
    requires k < |failed|
  {
    NodeH(n, Green) in nodes
    || forall g :: NodeH(g, Green) in nodes ==> Spent(finished, failed[..k + 1], moved, push, failed[k].slice, g)
  }

  lemma {:induction false} TakerIsGreen(nodes: seq<NodeH>, selected: seq<NodeId>, list: seq<NodeId>,
                                        push: Copy -> Option<string>, x: SliceId, n: NodeId)
    requires GreenFirst(list, Candidates(nodes, selected, Green), Candidates(nodes, selected, Yellow))
    requires FirstTaker(list, push, x, n) && NodeH(n, Green) !in nodes
    ensures forall g :: NodeH(g, Green) in nodes ==> g in selected || push(Copy(x, g)).None?
  {
    var green := Candidates(nodes, selected, Green);
    var i :| 0 <= i < |list| && list[i] == n && forall k :: 0 <= k < i ==> push(Copy(x, list[k])).None?;
    CandidatesAre(nodes, selected, Green, n);
    forall k | 0 <= k < |green| ensures list[k] in green {
      assert list[..|green|][k] in multiset(list[..|green|]);
      assert list[k] in multiset(green);
    }
    assert i >= |green|;
    forall g | NodeH(g, Green) in nodes && g !in selected ensures push(Copy(x, g)).None? {
      CandidatesAre(nodes, selected, Green, g);
      assert g in multiset(green) && g in multiset(list[..|green|]);
      var k :| 0 <= k < |green| && list[..|green|][k] == g;
      assert list[k] == g;
    }
  }

  ghost predicate GreenFirstMoves(finished: seq<EncryptedSlice>, failed: seq<EncryptedSlice>,
                                  moved: seq<EncryptedSlice>, push: Copy -> Option<string>, nodes: seq<NodeH>)
  {
    |moved| <= |failed|
    && forall k :: 0 <= k < |moved| ==> GreenIfAny(finished, failed, k, moved[..k], push, nodes, moved[k].node)
  }

  lemma {:induction false} MovedGreenFirst(finished: seq<EncryptedSlice>, failed: seq<EncryptedSlice>,
                                           moved: seq<EncryptedSlice>, chosen: map<SliceId, seq<NodeId>>,
                                           list: seq<NodeId>, push: Copy -> Option<string>, nodes: seq<NodeH>,
                                           e: EncryptedSlice)
    requires |moved| < |failed| && e.slice == failed[|moved|].slice
    requires GreenFirstMoves(finished, failed, moved, push, nodes)
    requires Remembers(chosen, finished, failed[..|moved| + 1], moved, push)
    requires GreenFirst(list, Candidates(nodes, Selected(chosen, e.slice), Green),
                        Candidates(nodes, Selected(chosen, e.slice), Yellow))
    requires FirstTaker(list, push, e.slice, e.node)
    ensures GreenFirstMoves(finished, failed, moved + [e], push, nodes)
  {
    var k, more := |moved|, moved + [e];
    if NodeH(e.node, Green) !in nodes {
      TakerIsGreen(nodes, Selected(chosen, e.slice), list, push, e.slice, e.node);
    }
    assert GreenIfAny(finished, failed, k, moved, push, nodes, e.node);
    forall j | 0 <= j < |more| ensures GreenIfAny(finished, failed, j, more[..j], push, nodes, more[j].node) {
      assert more[..j] == moved[..j];
      assert moved[..k] == moved;
    }
  }

  /**
   Re-encrypts one failed copy for each candidate in turn and pushes it, remembering every
   candidate tried, until one accepts.
   */
  method PushToOne(suite: Suite, file: FileId, slice: EncryptedSlice, candidates: seq<NodeId>,
                   push: Copy -> Option<string>, chosen0: map<SliceId, seq<NodeId>>)
    returns (r: Result<EncryptedSlice, PlacementError>, chosen: map<SliceId, seq<NodeId>>)
    ensures r.Success? ==>
              r.value.slice == slice.slice && push(CopyOf(r.value)).Some?
              && FirstTaker(candidates, push, slice.slice, r.value.node)
    ensures var plain := suite.recover(SliceKey(file, slice.slice, slice.node), slice.cipher);
            r.Success? ==>
              plain.Some? && r.value.cipher == suite.encrypt(SliceKey(file, slice.slice, r.value.node), plain.value)
    ensures r.Failure? && r.error.PushFailed? ==>
              forall n :: n in candidates ==> push(Copy(slice.slice, n)).None?
    ensures r.Failure? ==> !r.error.NoMoreNodes?
    ensures r.Failure? && r.error.DecryptFailed? ==>
              suite.recover(SliceKey(file, slice.slice, slice.node), slice.cipher).None?
    ensures forall x :: x != slice.slice ==> Selected(chosen, x) == Selected(chosen0, x)
    ensures Selected(chosen0, slice.slice) <= Selected(chosen, slice.slice)
    ensures r.Success? ==> r.value.node in Selected(chosen, slice.slice)
    ensures r.Success? || r.error.PushFailed? ==>
              forall n :: n in Selected(chosen, slice.slice) && n !in Selected(chosen0, slice.slice) ==>
                push(Copy(slice.slice, n)).None? || (r.Success? && n == r.value.node)
  {
    chosen := chosen0;
    for i := 0 to |candidates|
      invariant forall k :: 0 <= k < i ==> push(Copy(slice.slice, candidates[k])).None?
      invariant forall x :: x != slice.slice ==> Selected(chosen, x) == Selected(chosen0, x)
      invariant Selected(chosen0, slice.slice) <= Selected(chosen, slice.slice)
      invariant forall n :: n in Selected(chosen, slice.slice) && n !in Selected(chosen0, slice.slice) ==>
                  push(Copy(slice.slice, n)).None?
    {
      var node := candidates[i];
      chosen := Select(chosen, slice.slice, node);
      var plain := suite.recover(SliceKey(file, slice.slice, slice.node), slice.cipher);
      if plain.None? { return Failure(DecryptFailed), chosen; }
      var es := EncryptedSlice(slice.slice, node, suite.encrypt(SliceKey(file, slice.slice, node), plain.value));
      if push(CopyOf(es)).Some? {
        assert candidates[i] == node;
        return Success(es), chosen;
      }
    }
    return Failure(PushFailed), chosen;
  }

  /**
   Moves every twice-failed copy to another healthy node. On success the k-th moved copy is
   of the k-th failed slice, properly encrypted for a node that had no copy of it. It gives
   up on a slice only when every healthy node is spent for that slice.
   */
  method PushToOtherNode(suite: Suite, file: FileId, ghost plain: SliceId -> Bytes,
                         failed: seq<EncryptedSlice>, finished: seq<EncryptedSlice>,
                         nodes: seq<NodeH>, push: Copy -> Option<string>)
    returns (r: Result<seq<EncryptedSlice>, PlacementError>)
    requires suite.Sound() && Genuine(suite, file, plain, failed)
    ensures r.Success? ==> Relocated(AllCopies(failed), AllCopies(finished), AllCopies(r.value))
    ensures r.Success? ==> Genuine(suite, file, plain, r.value)
    ensures r.Success? ==> forall e :: e in r.value ==>
              Healthy(nodes, e.node) && push(CopyOf(e)).Some?
    ensures r.Success? ==> GreenFirstMoves(finished, failed, r.value, push, nodes) && |r.value| == |failed|
    ensures r.Failure? ==> r.error == NoMoreNodes || r.error == PushFailed
    ensures r == Failure(PushFailed) ==>
              exists k, n :: 0 <= k < |failed| && Healthy(nodes, n) && push(Copy(failed[k].slice, n)).None?
    ensures r.Failure? ==> exists k, moved :: Hopeless(finished, failed, k, moved, push, nodes)
  {
    var moved: seq<EncryptedSlice> := [];
    var chosen := Remember(finished, push);
    for k := 0 to |failed|
      invariant |moved| == k
      invariant Remembers(chosen, finished, failed[..k], moved, push)
      invariant Relocated(AllCopies(failed[..k]), AllCopies(finished), AllCopies(moved))
      invariant Genuine(suite, file, plain, moved)
      invariant forall e :: e in moved ==>
                  Healthy(nodes, e.node) && push(CopyOf(e)).Some?
      invariant GreenFirstMoves(finished, failed, moved, push, nodes)
    {
      var slice := failed[k];
      var before := Select(chosen, slice.slice, slice.node);
      FailedRemembered(chosen, finished, failed, moved, push, k);
      var list := FindNewNodes(nodes, Selected(before, slice.slice));
      if list.Failure? {
        assert Hopeless(finished, failed, k, moved, push, nodes);
        return Failure(NoMoreNodes);
      }
      var one, after := PushToOne(suite, file, slice, list.value, push, before);
      if one.Failure? {
        assert Hopeless(finished, failed, k, moved, push, nodes) by {
          forall n | Healthy(nodes, n) ensures Spent(finished, failed[..k + 1], moved, push, slice.slice, n) {
            assert n in list.value || n in Selected(before, slice.slice);
          }
        }
        assert list.value[0] in list.value && push(Copy(slice.slice, list.value[0])).None?;
        return Failure(one.error);
      }
      MovedGreenFirst(finished, failed, moved, before, list.value, push, nodes, one.value);
      MovedRemembered(before, after, finished, failed[..k + 1], moved, one.value, push);
      RelocatedOne(finished, failed, moved, one.value, k);
      moved := moved + [one.value];
      chosen := after;
    }
    assert failed[..|failed|] == failed;
    return Success(moved);
  }

  /** Every healthy node is spent for the slice of the k-th failed copy. */
  ghost predicate Hopeless(finished: seq<EncryptedSlice>, failed: seq<EncryptedSlice>, k: nat,
                           moved: seq<EncryptedSlice>, push: Copy -> Option<string>, nodes: seq<NodeH>) {
    k < |failed|
    && forall n :: Healthy(nodes, n) ==> Spent(finished, failed[..k + 1], moved, push, failed[k].slice, n)
  }

  lemma RelocatedOne(finished: seq<EncryptedSlice>, failed: seq<EncryptedSlice>, moved: seq<EncryptedSlice>,
                     e: EncryptedSlice, k: nat)
    requires k < |failed| && Relocated(AllCopies(failed[..k]), AllCopies(finished), AllCopies(moved))
    requires e.slice == failed[k].slice
    requires CopyOf(e) !in AllCopies(finished) && CopyOf(e) !in AllCopies(moved)
    ensures Relocated(AllCopies(failed[..k + 1]), AllCopies(finished), AllCopies(moved + [e]))
  {
    assert AllCopies(moved + [e]) == AllCopies(moved) + [CopyOf(e)];
    assert AllCopies(failed[..k + 1]) == AllCopies(failed[..k]) + [CopyOf(failed[k])];
  }

  lemma FailedRemembered(chosen: map<SliceId, seq<NodeId>>, finished: seq<EncryptedSlice>,
                         failed: seq<EncryptedSlice>, moved: seq<EncryptedSlice>,
                         push: Copy -> Option<string>, k: nat)
    requires k < |failed| && Remembers(chosen, finished, failed[..k], moved, push)
    ensures Remembers(Select(chosen, failed[k].slice, failed[k].node), finished, failed[..k + 1], moved, push)
  {
    var more := Select(chosen, failed[k].slice, failed[k].node);
    assert AllCopies(failed[..k + 1]) == AllCopies(failed[..k]) + [CopyOf(failed[k])];
    forall x, n | n in Selected(more, x) ensures Spent(finished, failed[..k + 1], moved, push, x, n) {
      if n in Selected(chosen, x) {
        assert Spent(finished, failed[..k], moved, push, x, n);
      } else {
        assert Copy(x, n) == CopyOf(failed[k]);
      }
    }
  }

  lemma MovedRemembered(before: map<SliceId, seq<NodeId>>, after: map<SliceId, seq<NodeId>>,
                        finished: seq<EncryptedSlice>, failed: seq<EncryptedSlice>,
                        moved: seq<EncryptedSlice>, e: EncryptedSlice, push: Copy -> Option<string>)
    requires Remembers(before, finished, failed, moved, push)
    requires forall x :: x != e.slice ==> Selected(after, x) == Selected(before, x)
    requires Selected(before, e.slice) <= Selected(after, e.slice)
    requires e.node in Selected(after, e.slice)
    requires forall n :: n in Selected(after, e.slice) && n !in Selected(before, e.slice) ==>
               push(Copy(e.slice, n)).None? || n == e.node
    ensures Remembers(after, finished, failed, moved + [e], push)
  {
    assert AllCopies(moved + [e]) == AllCopies(moved) + [CopyOf(e)];
    forall x, n | n in Selected(after, x) ensures Spent(finished, failed, moved + [e], push, x, n) {
      if n in Selected(before, x) {
        assert Spent(finished, failed, moved, push, x, n);
      } else {
        assert x == e.slice;
        assert n == e.node ==> Copy(x, n) == CopyOf(e);
      }
    }
  }
}
