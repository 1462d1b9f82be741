/** A file written and read back: the run of a write, its packing, and the two readers together. */
module RoundTrip {
  import opened Wrappers
  import opened Copies
  import opened Sequences
  import opened Crypto
  import opened Packing
  import opened ReadBack
  import WritePipeline
  import WriteProgress
  import WriteConservation
  import Placement

  type Run = (seq<WritePipeline.State>, seq<WritePipeline.Action>)

  // ---------------------------------------------------------------- from the run to the copies

  /** The copies that a state counts as finished, with their ciphertexts: each is the plaintext of
      its slice encrypted for its node. */
  ghost predicate Encrypted(suite: Suite, file: FileId, plain: SliceId -> Bytes, copies: seq<Copy>,
                            es: seq<EncryptedSlice>)
  {
    Placement.AllCopies(es) == copies && Placement.Genuine(suite, file, plain, es)
  }

  lemma Relocates(cfg: WritePipeline.Config, s: WritePipeline.State, suite: Suite, file: FileId,
                  plain: SliceId -> Bytes, finished: seq<EncryptedSlice>, moved: seq<EncryptedSlice>)
    requires s.main.Relocating? && Relocated(s.failedTwice, s.finished, Placement.AllCopies(moved))
    requires Encrypted(suite, file, plain, s.finished, finished) && Placement.Genuine(suite, file, plain, moved)
    ensures var a := WritePipeline.MainRelocates(Some(Placement.AllCopies(moved)));
            && WritePipeline.Enabled(cfg, s, a)
            && WritePipeline.Next(cfg, s, a).main == WritePipeline.Ended(true)
            && Encrypted(suite, file, plain, WritePipeline.Next(cfg, s, a).finished, finished + moved)
  {
    assert Placement.AllCopies(finished + moved) == Placement.AllCopies(finished) + Placement.AllCopies(moved);
  }

  /**
   What pushToOtherNode achieves is the last step of the run: what it moved completes the
   finished copies, and giving up ends the write with an error.
   */
  method MoveTwiceFailed(ghost cfg: WritePipeline.Config, ghost s: WritePipeline.State, suite: Suite, file: FileId,
                         ghost plain: SliceId -> Bytes, failed: seq<EncryptedSlice>, finished: seq<EncryptedSlice>,
                         nodes: seq<Placement.NodeH>, push: Copy -> Option<string>)
    returns (r: Result<seq<EncryptedSlice>, Placement.PlacementError>, ghost a: WritePipeline.Action)
    requires suite.Sound() && s.main.Relocating?
    requires Encrypted(suite, file, plain, s.failedTwice, failed) && Encrypted(suite, file, plain, s.finished, finished)
    ensures WritePipeline.Enabled(cfg, s, a)
    ensures WritePipeline.Next(cfg, s, a).main == WritePipeline.Ended(r.Success?)
    ensures r.Success? ==> Encrypted(suite, file, plain, WritePipeline.Next(cfg, s, a).finished, finished + r.value)
  {
    r := Placement.PushToOtherNode(suite, file, plain, failed, finished, nodes, push);
    if r.Success? {
      a := WritePipeline.MainRelocates(Some(Placement.AllCopies(r.value)));
      Relocates(cfg, s, suite, file, plain, finished, r.value);
    } else {
      a := WritePipeline.MainRelocates(None);
    }
  }

  /** A write that ended without error: its run, the blocks of the encrypted file as its slices,
      the structure in the order in which slices were met, and the finished copies. */
  ghost predicate Wrote(cfg: WritePipeline.Config, run: Run, suite: Suite, file: FileId, content: Bytes, size: nat,
                        ids: seq<SliceId>, plain: SliceId -> Bytes, es: seq<EncryptedSlice>)
    requires size > 0
  {
    && suite.Sound() && cfg.Valid() && WriteProgress.Run(cfg, run.0, run.1)
    && Plains(plain, cfg.file) == Blocks(suite.encrypt(FileKey(file), content), size)
    && var s := run.0[|run.1|];
       && s.main == WritePipeline.Ended(true)
       && ids == s.metas + s.metaQ.items
       && Encrypted(suite, file, plain, s.finished, es)
  }

  /** The structure names the slices in file order, and every slice has its copies on distinct nodes. */
  lemma {:induction false} WroteAll(cfg: WritePipeline.Config, run: Run, suite: Suite, file: FileId,
                                    content: Bytes, size: nat, ids: seq<SliceId>, plain: SliceId -> Bytes,
                                    es: seq<EncryptedSlice>)
    requires size > 0 && Wrote(cfg, run, suite, file, content, size, ids, plain, es)
    ensures ids == cfg.file != [] && Placed(Placement.AllCopies(es), ids, cfg.replica)
    ensures Plains(plain, ids) == Blocks(suite.encrypt(FileKey(file), content), size)
  {
    WriteConservation.WritePlacesEverySlice(cfg, run.0, run.1);
  }

  // ---------------------------------------------------------------- storage indexes

  /** A finished copy, and the storage index its push returned. */
  type Stored = (EncryptedSlice, nat)

  /** The node gives back what it was sent when asked for it by the index it returned. */
  ghost predicate GivesBack(p: Stored, pull: Pull) {
    pull(p.0.slice, p.1, p.0.node) == Some(p.0.cipher)
  }

  /** One copy of the slice is on a node that is online and gives back what it was sent. */
  ghost predicate Served(stored: seq<Stored>, online: set<NodeId>, pull: Pull, x: SliceId) {
    exists p :: p in stored && p.0.slice == x && p.0.node in online && GivesBack(p, pull)
  }

  /** What is published of the stored copies, the number on the node aside. */
  function Published(suite: Suite, stored: seq<Stored>): (ms: seq<PublicMeta>)
    ensures |ms| == |stored| && forall i :: 0 <= i < |ms| ==> ms[i] == MetaOf(suite, stored[i].0, stored[i].1, 0)
  {
    if stored == [] then [] else [MetaOf(suite, stored[0].0, stored[0].1, 0)] + Published(suite, stored[1..])
  }

  function Unnumbered(metas: seq<PublicMeta>): (ms: seq<PublicMeta>)
    ensures |ms| == |metas| && forall i :: 0 <= i < |ms| ==> ms[i] == metas[i].(sliceIdx := 0)
  {
    if metas == [] then [] else [metas[0].(sliceIdx := 0)] + Unnumbered(metas[1..])
  }

  /** The metas are those of the stored copies, each with its own index, in any order. */
  ghost predicate PackedFrom(suite: Suite, stored: seq<Stored>, metas: seq<PublicMeta>) {
    multiset(Unnumbered(metas)) == multiset(Published(suite, stored))
  }

  lemma {:induction false} PublishedWithout(suite: Suite, stored: seq<Stored>, i: nat)
    requires i < |stored|
    ensures multiset(Published(suite, stored))
            == multiset(Published(suite, stored[..i] + stored[i + 1..]))
               + multiset{MetaOf(suite, stored[i].0, stored[i].1, 0)}
  {
    var ms := Published(suite, stored);
    OneOut(ms, i);
    assert ms[..i] + ms[i + 1..] == Published(suite, stored[..i] + stored[i + 1..]);
  }

  lemma {:induction false} PublishedPermutes(suite: Suite, a: seq<Stored>, b: seq<Stored>)
    requires multiset(a) == multiset(b)
    ensures multiset(Published(suite, a)) == multiset(Published(suite, b))
    decreases |a|
  {
    if a == [] {
      assert |b| == |multiset(b)|;
    } else {
      assert a[0] in multiset(b);
      var i :| 0 <= i < |b| && b[i] == a[0];
      var rest := b[..i] + b[i + 1..];
      assert multiset(a[1..]) == multiset(rest) by {
        FirstOut(a);
        OneOut(b, i);
        assert multiset(a[1..]) == multiset(a) - multiset{a[0]};
        assert multiset(rest) == multiset(b) - multiset{a[0]};
      }
      PublishedPermutes(suite, a[1..], rest);
      var m := MetaOf(suite, a[0].0, a[0].1, 0);
      assert multiset(Published(suite, a)) == multiset(Published(suite, a[1..])) + multiset{m} by {
        FirstOut(Published(suite, a));
        assert Published(suite, a)[1..] == Published(suite, a[1..]);
      }
      assert multiset(Published(suite, b)) == multiset(Published(suite, rest)) + multiset{m} by {
        PublishedWithout(suite, b, i);
      }
    }
  }

  /** Packing after the shuffle publishes every finished copy with the index its push returned. */
  method Publish(suite: Suite, es: array<EncryptedSlice>, storIndexes: array<nat>, pairing: bool)
    returns (metas: seq<PublicMeta>)
    requires es.Length == storIndexes.Length
    modifies es, storIndexes
    ensures PackedFrom(suite, Zip(old(es[..]), old(storIndexes[..])), metas)
  {
    RearrangeEncSlices(es, storIndexes);
    ghost var before := Zip(old(es[..]), old(storIndexes[..]));
    ghost var after := Zip(es[..], storIndexes[..]);
    metas := PackSlices(suite, es[..], storIndexes[..], pairing);
    assert Unnumbered(metas) == Published(suite, after);
    PublishedPermutes(suite, after, before);
  }

  lemma MetaFrom(suite: Suite, stored: seq<Stored>, metas: seq<PublicMeta>, m: PublicMeta) returns (p: Stored)
    requires PackedFrom(suite, stored, metas) && m in metas
    ensures p in stored && m.(sliceIdx := 0) == MetaOf(suite, p.0, p.1, 0)
  {
    var k :| 0 <= k < |metas| && metas[k] == m;
    assert Unnumbered(metas)[k] in multiset(Unnumbered(metas));
    assert Unnumbered(metas)[k] in Published(suite, stored);
    var i :| 0 <= i < |stored| && Published(suite, stored)[i] == Unnumbered(metas)[k];
    p := stored[i];
  }

  lemma PackedAreGenuine(suite: Suite, file: FileId, plain: SliceId -> Bytes, es: seq<EncryptedSlice>,
                                            storIndexes: seq<nat>, metas: seq<PublicMeta>)
    requires |es| == |storIndexes|
    requires Placement.Genuine(suite, file, plain, es) && PackedFrom(suite, Zip(es, storIndexes), metas)
    ensures Genuine(suite, file, plain, metas)
  {
    forall m | m in metas
      ensures m.length == |suite.encrypt(SliceKey(file, m.id, m.node), plain(m.id))|
              && m.cipherHash == suite.hash(suite.encrypt(SliceKey(file, m.id, m.node), plain(m.id)))
    {
      var p := MetaFrom(suite, Zip(es, storIndexes), metas, m);
      var k :| 0 <= k < |es| && Zip(es, storIndexes)[k] == p;
      assert es[k] == p.0;
    }
  }

  lemma ServedIsReadable(suite: Suite, stored: seq<Stored>, metas: seq<PublicMeta>, online: set<NodeId>,
                                            pull: Pull, x: SliceId)
    requires PackedFrom(suite, stored, metas) && Served(stored, online, pull, x)
    ensures Readable(suite, online, pull, metas, x)
  {
    var p :| p in stored && p.0.slice == x && p.0.node in online && GivesBack(p, pull);
    var i :| 0 <= i < |stored| && stored[i] == p;
    assert Published(suite, stored)[i] in multiset(Published(suite, stored));
    assert Published(suite, stored)[i] in Unnumbered(metas);
    var k :| 0 <= k < |metas| && Unnumbered(metas)[k] == Published(suite, stored)[i];
    var m := metas[k];
    assert m in metas && m.storIndex == p.1 && m.id == x;
    assert Usable(suite, online, pull, m);
  }

  // ---------------------------------------------------------------- the readers

  /** Engine.Read gets the content back when `tail` is what the runtime left in the buffer. */
  ghost predicate ReadsBack(suite: Suite, file: FileId, content: Bytes, size: nat, tail: Bytes)
    requires suite.Sound() && size > 0
  {
    var c := suite.encrypt(FileKey(file), content);
    Finish(suite, file, |c| - 16, JoinTrimmed(Blocks(c, size)), tail) == Success(content)
  }

  /** What the two readers make of the ciphertext they join, each over every buffer the runtime may leave. */
  lemma {:induction false} ReadersExact(suite: Suite, file: FileId, content: Bytes, size: nat)
    requires suite.Sound() && size > 0
    ensures (forall tail :: ReadsBack(suite, file, content, size, tail))
            <==> NoBlockEndsInZero(suite.encrypt(FileKey(file), content), size)
    ensures var c := suite.encrypt(FileKey(file), content);
            Recovered(suite, file, JoinLastTrimmed(Blocks(c, size))) == Success(content) <==> c[|c| - 1] != 0
  {
    var c := suite.encrypt(FileKey(file), content);
    var joined := JoinTrimmed(Blocks(c, size));
    JoinTrimmedExact(c, size);
    JoinLastTrimmedExact(c, size);
    forall tail: Bytes | joined == c ensures ReadsBack(suite, file, content, size, tail) {
      assert (joined + tail)[..|c|] == c;
    }
    assert joined + [] == joined;
    assert |joined| < |c| ==> !ReadsBack(suite, file, content, size, []);
  }

  /**
   Engine.Read after any run of a write that ended without error, with one good online replica a
   slice: it returns the original bytes, provided no block of the once-encrypted file ends in a
   zero byte. That proviso is exact: without it there is a buffer for which the read fails.
   */
  method WriteThenRead(ghost cfg: WritePipeline.Config, ghost run: Run, suite: Suite, file: FileId,
                       ghost content: Bytes, ghost size: nat, ids: seq<SliceId>, ghost plain: SliceId -> Bytes,
                       es: array<EncryptedSlice>, storIndexes: array<nat>, pairing: bool,
                       online: set<NodeId>, pull: Pull, length: nat, tail: Bytes)
    returns (r: Result<Bytes, ReadError>)
    requires size > 0 && es.Length == storIndexes.Length
    requires length == |suite.encrypt(FileKey(file), content)| - 16
    requires Wrote(cfg, run, suite, file, content, size, ids, plain, es[..])
    requires forall x :: x in ids ==> Served(Zip(es[..], storIndexes[..]), online, pull, x)
    modifies es, storIndexes
    ensures var c := suite.encrypt(FileKey(file), content);
            CutAndDecrypts(suite, file, length, JoinTrimmed(Blocks(c, size)) + tail, r)
    ensures NoBlockEndsInZero(suite.encrypt(FileKey(file), content), size) ==> r == Success(content)
    ensures !NoBlockEndsInZero(suite.encrypt(FileKey(file), content), size) && tail == [] ==> r == Failure(OutOfRange)
  {
    ghost var c := suite.encrypt(FileKey(file), content);
    ghost var copies, stored := es[..], Zip(es[..], storIndexes[..]);
    WroteAll(cfg, run, suite, file, content, size, ids, plain, copies);
    ghost var indexes := storIndexes[..];
    var metas := Publish(suite, es, storIndexes, pairing);
    PackedAreGenuine(suite, file, plain, copies, indexes, metas);
    forall i | 0 <= i < |ids| ensures Readable(suite, online, pull, metas, ids[i]) {
      assert ids[i] in ids;
      ServedIsReadable(suite, stored, metas, online, pull, ids[i]);
    }
    ReadersExact(suite, file, content, size);
    assert NoBlockEndsInZero(c, size) ==> ReadsBack(suite, file, content, size, tail);
    JoinTrimmedExact(c, size);
    r := Read(suite, file, plain, online, pull, ids, metas, length, tail);
    assert tail == [] ==> JoinTrimmed(Blocks(c, size)) + tail == JoinTrimmed(Blocks(c, size));
  }

  /** recoverFile after a write: exact, too, but only the very last byte of the ciphertext matters. */
  method WriteThenRecover(ghost cfg: WritePipeline.Config, ghost run: Run, suite: Suite, file: FileId,
                          ghost content: Bytes, ghost size: nat, ids: seq<SliceId>, ghost plain: SliceId -> Bytes,
                          es: array<EncryptedSlice>, storIndexes: array<nat>, pairing: bool,
                          online: set<NodeId>, pull: Pull)
    returns (r: Result<Bytes, ReadError>)
    requires size > 0 && es.Length == storIndexes.Length
    requires Wrote(cfg, run, suite, file, content, size, ids, plain, es[..])
    requires forall x :: x in ids ==> Served(Zip(es[..], storIndexes[..]), online, pull, x)
    modifies es, storIndexes
    ensures var c := suite.encrypt(FileKey(file), content);
            |c| >= 16 && (r == Success(content) <==> c[|c| - 1] != 0)
  {
    ghost var copies, stored := es[..], Zip(es[..], storIndexes[..]);
    WroteAll(cfg, run, suite, file, content, size, ids, plain, copies);
    ghost var indexes := storIndexes[..];
    var metas := Publish(suite, es, storIndexes, pairing);
    PackedAreGenuine(suite, file, plain, copies, indexes, metas);
    forall i | 0 <= i < |ids| ensures Readable(suite, online, pull, metas, ids[i]) {
      assert ids[i] in ids;
      ServedIsReadable(suite, stored, metas, online, pull, ids[i]);
    }
    ReadersExact(suite, file, content, size);
    r := RecoverFile(suite, file, plain, online, pull, ids, metas);
  }
}
