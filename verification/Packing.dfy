/**
 Packing the finished copies of a file for the blockchain: a joint shuffle of the copies
 and their storage indexes, and the per-node numbering of the pairing-based challenge.
 */
module Packing {
  import opened Wrappers
  import opened Copies
  import opened Sequences
  import opened Crypto

  datatype PublicMeta = PublicMeta(
    id: SliceId, length: nat, node: NodeId, cipherHash: Digest, storIndex: nat, sliceIdx: nat)

  // ---------------------------------------------------------------- the joint shuffle

  function Zip<A, B>(a: seq<A>, b: seq<B>): (z: seq<(A, B)>)
    requires |a| == |b|
    ensures |z| == |a| && forall i :: 0 <= i < |a| ==> z[i] == (a[i], b[i])
  {
    seq(|a|, i requires 0 <= i < |a| => (a[i], b[i]))
  }

  lemma SwapZip<A, B>(a: seq<A>, b: seq<B>, j: nat, k: nat)
    requires |a| == |b| && j < |a| && k < |a|
    ensures multiset(Zip(a[j := a[k]][k := a[j]], b[j := b[k]][k := b[j]])) == multiset(Zip(a, b))
  {
    var z := Zip(a, b);
    assert Zip(a[j := a[k]][k := a[j]], b[j := b[k]][k := b[j]]) == z[j := z[k]][k := z[j]];
    SwapKeepsMultiset(z, j, k);
  }

  /** As many random swaps as there are copies; each swaps the copies and their indexes alike. */
  method RearrangeEncSlices(slices: array<EncryptedSlice>, storIndexes: array<nat>)
    requires slices.Length == storIndexes.Length
    modifies slices, storIndexes
    ensures multiset(Zip(slices[..], storIndexes[..])) == multiset(Zip(old(slices[..]), old(storIndexes[..])))
  {
    var num := slices.Length;
    for i := 0 to num
      invariant multiset(Zip(slices[..], storIndexes[..])) == multiset(Zip(old(slices[..]), old(storIndexes[..])))
    {
      var j: nat :| j < num;
      var k: nat :| k < num;
      ghost var a, b := slices[..], storIndexes[..];
      slices[j], slices[k] := slices[k], slices[j];
      storIndexes[j], storIndexes[k] := storIndexes[k], storIndexes[j];
      assert slices[..] == a[j := a[k]][k := a[j]];
      assert storIndexes[..] == b[j := b[k]][k := b[j]];
      SwapZip(a, b, j, k);
    }
  }

  // ---------------------------------------------------------------- numbering per node

  /** How many of the first `n` copies are on `node`. */
  function OnNode(es: seq<EncryptedSlice>, n: nat, node: NodeId): (c: nat)
    requires n <= |es|
    ensures c <= n
  {
    if n == 0 then 0 else OnNode(es, n - 1, node) + if es[n - 1].node == node then 1 else 0
  }

  function MetaOf(suite: Suite, e: EncryptedSlice, storIndex: nat, sliceIdx: nat): PublicMeta {
    PublicMeta(e.slice, |e.cipher|, e.node, suite.hash(e.cipher), storIndex, sliceIdx)
  }

  /** The loop of packChainFile; outside Pairing mode no slice gets an index. */
  method PackSlices(suite: Suite, es: seq<EncryptedSlice>, storIndexes: seq<nat>, pairing: bool)
    returns (metas: seq<PublicMeta>)
    requires |es| == |storIndexes|
    ensures |metas| == |es|
    ensures forall i :: 0 <= i < |es| ==>
              metas[i] == MetaOf(suite, es[i], storIndexes[i], if pairing then OnNode(es, i + 1, es[i].node) else 0)
  {
    var sliceIdxMap: map<NodeId, nat> := map[];
    metas := [];
    for i := 0 to |es|
      invariant |metas| == i
      invariant forall k :: 0 <= k < i ==>
                  metas[k] == MetaOf(suite, es[k], storIndexes[k], if pairing then OnNode(es, k + 1, es[k].node) else 0)
      invariant pairing ==> forall n :: OnNode(es, i, n) == if n in sliceIdxMap then sliceIdxMap[n] else 0
    {
      var s := es[i];
      var idx := 0;
      if pairing {
        if s.node !in sliceIdxMap {
          sliceIdxMap := sliceIdxMap[s.node := 1];
        } else {
          sliceIdxMap := sliceIdxMap[s.node := sliceIdxMap[s.node] + 1];
        }
        idx := sliceIdxMap[s.node];
      }
      metas := metas + [MetaOf(suite, s, storIndexes[i], idx)];
    }
  }

  lemma {:induction false} OnNodeGrows(es: seq<EncryptedSlice>, m: nat, n: nat, node: NodeId)
    requires m <= n <= |es|
    ensures OnNode(es, m, node) <= OnNode(es, n, node)
    decreases n
  {
    if m < n {
      OnNodeGrows(es, m, n - 1, node);
    }
  }

  /** On one node the numbers are pairwise different. */
  lemma {:induction false} NumbersDiffer(es: seq<EncryptedSlice>, i: nat, j: nat)
    requires i < j < |es| && es[i].node == es[j].node
    ensures 1 <= OnNode(es, i + 1, es[i].node) < OnNode(es, j + 1, es[j].node) <= OnNode(es, |es|, es[j].node)
  {
    OnNodeGrows(es, i + 1, j, es[i].node);
    OnNodeGrows(es, j + 1, |es|, es[i].node);
  }

  ghost predicate Numbered(es: seq<EncryptedSlice>, i: nat, node: NodeId, v: nat) {
    i < |es| && es[i].node == node && OnNode(es, i + 1, node) == v
  }

  /** And every number from 1 to the node's count is given out. */
  lemma {:induction false} NumbersReached(es: seq<EncryptedSlice>, n: nat, node: NodeId, v: nat)
    requires n <= |es| && 1 <= v <= OnNode(es, n, node)
    ensures exists i: nat :: Numbered(es, i, node, v)
  {
    if OnNode(es, n - 1, node) >= v {
      NumbersReached(es, n - 1, node, v);
    } else {
      assert Numbered(es, n - 1, node, v);
    }
  }

  /** The indexes of one node, in Pairing mode. */
  ghost predicate NumbersNode(metas: seq<PublicMeta>, node: NodeId, count: nat) {
    && (forall i :: 0 <= i < |metas| && metas[i].node == node ==> 1 <= metas[i].sliceIdx <= count)
    && (forall i, j :: 0 <= i < j < |metas| && metas[i].node == node && metas[j].node == node ==>
          metas[i].sliceIdx != metas[j].sliceIdx)
    && (forall v :: 1 <= v <= count ==> GivenOut(metas, node, v))
  }

  ghost predicate GivenOut(metas: seq<PublicMeta>, node: NodeId, v: nat) {
    exists i :: 0 <= i < |metas| && metas[i].node == node && metas[i].sliceIdx == v
  }

  /** In Pairing mode each node's indexes are a bijection onto 1 up to the number of its copies. */
  lemma {:induction false} PairingNumbers(es: seq<EncryptedSlice>, metas: seq<PublicMeta>, node: NodeId)
    requires |metas| == |es|
    requires forall i :: 0 <= i < |es| ==>
               metas[i].node == es[i].node && metas[i].sliceIdx == OnNode(es, i + 1, es[i].node)
    ensures NumbersNode(metas, node, OnNode(es, |es|, node))
  {
    var count := OnNode(es, |es|, node);
    forall i | 0 <= i < |metas| && metas[i].node == node ensures 1 <= metas[i].sliceIdx <= count {
      OnNodeGrows(es, i + 1, |es|, node);
    }
    forall i, j | 0 <= i < j < |metas| && metas[i].node == node && metas[j].node == node
      ensures metas[i].sliceIdx != metas[j].sliceIdx
    {
      NumbersDiffer(es, i, j);
    }
    forall v | 1 <= v <= count ensures GivenOut(metas, node, v) {
      NumbersReached(es, |es|, node, v);
      var i: nat :| Numbered(es, i, node, v);
      assert metas[i].node == node && metas[i].sliceIdx == v;
    }
  }

  /**
   The map a challenge looks slice indexes up in. The source joins a slice's uuid and a
   node's key into one string; since uuids have one length this is a pair.
   */
  method GetSlicesIdxMap(metas: seq<PublicMeta>) returns (idxMap: map<(SliceId, NodeId), nat>)
    ensures forall k :: k in idxMap <==> exists i :: 0 <= i < |metas| && (metas[i].id, metas[i].node) == k
    ensures (forall i, j :: 0 <= i < j < |metas| ==> (metas[i].id, metas[i].node) != (metas[j].id, metas[j].node))
            ==> forall i :: 0 <= i < |metas| ==>
                  (metas[i].id, metas[i].node) in idxMap && idxMap[(metas[i].id, metas[i].node)] == metas[i].sliceIdx
  {
    idxMap := map[];
    for i := 0 to |metas|
      invariant forall k :: k in idxMap <==> exists j :: 0 <= j < i && (metas[j].id, metas[j].node) == k
      invariant (forall j, l :: 0 <= j < l < |metas| ==> (metas[j].id, metas[j].node) != (metas[l].id, metas[l].node))
            ==> forall j :: 0 <= j < i ==>
                  (metas[j].id, metas[j].node) in idxMap && idxMap[(metas[j].id, metas[j].node)] == metas[j].sliceIdx
    {
      var s := metas[i];
      idxMap := idxMap[(s.id, s.node) := s.sliceIdx];
    }
  }

  /**
   Once copies are placed without repetition, the index map gives two slices on one node
   two different indexes.
   */
  lemma {:induction false} IndexesSeparate(es: seq<EncryptedSlice>, metas: seq<PublicMeta>,
                                           idxMap: map<(SliceId, NodeId), nat>,
                        i: nat, j: nat)
    requires |metas| == |es| && i < |es| && j < |es| && i != j && es[i].node == es[j].node
    requires forall k :: 0 <= k < |es| ==>
               metas[k].id == es[k].slice && metas[k].node == es[k].node
               && metas[k].sliceIdx == OnNode(es, k + 1, es[k].node)
    requires forall k :: 0 <= k < |metas| ==>
               (metas[k].id, metas[k].node) in idxMap && idxMap[(metas[k].id, metas[k].node)] == metas[k].sliceIdx
    ensures idxMap[(es[i].slice, es[i].node)] != idxMap[(es[j].slice, es[j].node)]
  {
    if i < j { NumbersDiffer(es, i, j); } else { NumbersDiffer(es, j, i); }
  }
}
