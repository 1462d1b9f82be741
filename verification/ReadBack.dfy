/**
 Reading a file back: pulling each slice from the first usable replica, joining the
 slices, and undoing the padding of the last one.

 `tail` stands for whatever bytes the runtime left between the length and the capacity of
 the buffer the joined slices were read into: the source slices that buffer up to a length
 it takes from the blockchain, which Go allows up to the capacity.
 */
module ReadBack {
  import opened Wrappers
  import opened Copies
  import opened Crypto
  import opened Packing

  datatype ReadError = BadStructure(slice: SliceId) | SliceNotFound(slice: SliceId) | OutOfRange | NotRecovered

  // ---------------------------------------------------------------- cutting and padding

  function Zeros(n: nat): (z: Bytes)
    ensures |z| == n && forall i :: 0 <= i < n ==> z[i] == 0
  {
    seq(n, _ => 0)
  }

  /** The blocks the slicer reads off a ciphertext, the last one filled up with zeros. */
  function Blocks(c: Bytes, size: nat): seq<Bytes>
    requires size > 0
  {
    if c == [] then []
    else if |c| <= size then [c + Zeros(size - |c|)]
    else [c[..size]] + Blocks(c[size..], size)
  }

  /** Removes trailing zero bytes. */
  function TrimRight(b: Bytes): (r: Bytes)
    ensures r <= b
    ensures r != [] ==> r[|r| - 1] != 0
    ensures forall i :: |r| <= i < |b| ==> b[i] == 0
  {
    if b == [] || b[|b| - 1] != 0 then b else TrimRight(b[..|b| - 1])
  }

  lemma {:induction false} TrimUnique(b: Bytes, r: Bytes)
    requires r <= b && (r != [] ==> r[|r| - 1] != 0)
    requires forall i :: |r| <= i < |b| ==> b[i] == 0
    ensures TrimRight(b) == r
  {
    var t := TrimRight(b);
    assert r != [] ==> r[|r| - 1] == b[|r| - 1];
    assert t != [] ==> t[|t| - 1] == b[|t| - 1];
    assert r == b[..|r|] && t == b[..|t|];
  }

  lemma {:induction false} TrimPadded(c: Bytes, n: nat)
    ensures TrimRight(c + Zeros(n)) == TrimRight(c)
  {
    TrimUnique(c + Zeros(n), TrimRight(c));
  }

  // ---------------------------------------------------------------- joining

  /** Engine.Read: every slice loses its trailing zeros. */
  function JoinTrimmed(bs: seq<Bytes>): Bytes {
    if bs == [] then [] else TrimRight(bs[0]) + JoinTrimmed(bs[1..])
  }

  /** recoverFile: only the last slice does. */
  function JoinLastTrimmed(bs: seq<Bytes>): Bytes {
    if bs == [] then [] else if |bs| == 1 then TrimRight(bs[0]) else bs[0] + JoinLastTrimmed(bs[1..])
  }

  /** No block of the ciphertext itself ends in a zero byte. */
  predicate NoBlockEndsInZero(c: Bytes, size: nat)
    requires size > 0
  {
    if c == [] then true
    else if |c| <= size then c[|c| - 1] != 0
    else c[size - 1] != 0 && NoBlockEndsInZero(c[size..], size)
  }

  lemma {:induction false} BlocksCons(c: Bytes, size: nat)
    requires 0 < size < |c|
    ensures JoinTrimmed(Blocks(c, size)) == TrimRight(c[..size]) + JoinTrimmed(Blocks(c[size..], size))
  {
    assert Blocks(c, size)[1..] == Blocks(c[size..], size);
  }

  lemma {:induction false} TrimKeeps(b: Bytes)
    requires b != []
    ensures b[|b| - 1] != 0 ==> TrimRight(b) == b
    ensures b[|b| - 1] == 0 ==> |TrimRight(b)| < |b|
  {
    if b[|b| - 1] != 0 { TrimUnique(b, b); }
  }

  /** The joined slices are the ciphertext, or fall short of it. */
  ghost predicate Exact(joined: Bytes, c: Bytes, keeps: bool) {
    (keeps ==> joined == c) && (!keeps ==> |joined| < |c|)
  }

  lemma {:induction false} ExactCons(head: Bytes, rest: Bytes, joined: Bytes, keeps: bool)
    requires head != [] && Exact(joined, rest, keeps)
    ensures Exact(TrimRight(head) + joined, head + rest, head[|head| - 1] != 0 && keeps)
  {
    TrimKeeps(head);
  }

  lemma {:induction false} JoinTrimmedExact(c: Bytes, size: nat)
    requires size > 0
    ensures Exact(JoinTrimmed(Blocks(c, size)), c, NoBlockEndsInZero(c, size))
  {
    if c == [] {
    } else if |c| <= size {
      LastBlockExact(c, size);
    } else {
      var head, rest := c[..size], c[size..];
      BlocksCons(c, size);
      JoinTrimmedExact(rest, size);
      ExactCons(head, rest, JoinTrimmed(Blocks(rest, size)), NoBlockEndsInZero(rest, size));
      assert c == head + rest && c[size - 1] == head[|head| - 1];
    }
  }

  lemma {:induction false} LastBlockExact(c: Bytes, size: nat)
    requires 0 < |c| <= size
    ensures Exact(JoinTrimmed(Blocks(c, size)), c, NoBlockEndsInZero(c, size))
  {
    var block := c + Zeros(size - |c|);
    var blocks := Blocks(c, size);
    assert blocks == [block] && blocks[1..] == [];
    TrimPadded(c, size - |c|);
    TrimKeeps(c);
  }

  lemma {:induction false} JoinLastTrimmedExact(c: Bytes, size: nat)
    requires size > 0
    ensures c == [] || c[|c| - 1] != 0 ==> JoinLastTrimmed(Blocks(c, size)) == c
    ensures c != [] && c[|c| - 1] == 0 ==> |JoinLastTrimmed(Blocks(c, size))| < |c|
  {
    if c == [] {
    } else if |c| <= size {
      TrimPadded(c, size - |c|);
      if c[|c| - 1] != 0 { TrimUnique(c, c); }
    } else {
      var head, rest := c[..size], c[size..];
      JoinLastTrimmedExact(rest, size);
      assert Blocks(c, size)[1..] == Blocks(rest, size) && Blocks(rest, size) != [];
      assert c == head + rest && rest[|rest| - 1] == c[|c| - 1];
    }
  }

  // ---------------------------------------------------------------- pulling one slice

  /** Pulling by slice, storage index and node: what came back, if anything did. */
  type Pull = (SliceId, nat, NodeId) -> Option<Bytes>

  function Pulled(pull: Pull, m: PublicMeta): Option<Bytes> { pull(m.id, m.storIndex, m.node) }

  /** A replica that can be used: its node is online and returns the recorded bytes. */
  predicate Usable(suite: Suite, online: set<NodeId>, pull: Pull, m: PublicMeta) {
    && m.node in online && Pulled(pull, m).Some?
    && |Pulled(pull, m).value| == m.length && suite.hash(Pulled(pull, m).value) == m.cipherHash
  }

  /** The recorded metas describe copies of `plain(slice)` encrypted for their nodes. */
  ghost predicate Genuine(suite: Suite, file: FileId, plain: SliceId -> Bytes, metas: seq<PublicMeta>) {
    forall m :: m in metas ==>
      m.length == |suite.encrypt(SliceKey(file, m.id, m.node), plain(m.id))|
      && m.cipherHash == suite.hash(suite.encrypt(SliceKey(file, m.id, m.node), plain(m.id)))
  }

  /** The replicas of a slice, in the order recorded. */
  function Replicas(srs: seq<PublicMeta>, x: SliceId): (ms: seq<PublicMeta>)
    ensures forall m :: m in ms <==> m in srs && m.id == x
  {
    if srs == [] then []
    else
      var init, last := srs[..|srs| - 1], srs[|srs| - 1];
      assert forall m :: m in srs <==> m in init || m == last;
      Replicas(init, x) + if last.id == x then [last] else []
  }

  ghost predicate IsPool(pool: map<SliceId, seq<PublicMeta>>, srs: seq<PublicMeta>) {
    && (forall x :: x in pool <==> exists m :: m in srs && m.id == x)
    && (forall x :: x in pool ==> pool[x] == Replicas(srs, x))
  }

  lemma PoolGrows(pool: map<SliceId, seq<PublicMeta>>, srs: seq<PublicMeta>, s: PublicMeta)
    requires IsPool(pool, srs)
    ensures IsPool(pool[s.id := (if s.id in pool then pool[s.id] else []) + [s]], srs + [s])
  {
    var more := srs + [s];
    assert more[..|srs|] == srs;
    forall x ensures Replicas(more, x) == Replicas(srs, x) + if s.id == x then [s] else [] {}
    assert s.id !in pool ==> Replicas(srs, s.id) == [] by {
      assert Replicas(srs, s.id) != [] ==> Replicas(srs, s.id)[0] in Replicas(srs, s.id);
    }
    assert s in more;
  }

  /** The replicas of each slice, in the order recorded. */
  method MakeSlicesPool(srs: seq<PublicMeta>) returns (pool: map<SliceId, seq<PublicMeta>>)
    ensures IsPool(pool, srs)
  {
    pool := map[];
    for i := 0 to |srs|
      invariant IsPool(pool, srs[..i])
    {
      var s := srs[i];
      PoolGrows(pool, srs[..i], s);
      assert srs[..i + 1] == srs[..i] + [s];
      pool := pool[s.id := (if s.id in pool then pool[s.id] else []) + [s]];
    }
    assert srs[..|srs|] == srs;
  }

  /**
   Falls back from replica to replica. Because an accepted ciphertext can only be the one
   recorded, the slice that comes out does not depend on which replica served it.
   */
  method PullSlice(suite: Suite, file: FileId, ghost plain: SliceId -> Bytes, online: set<NodeId>, pull: Pull,
                   slice: SliceId, targets: seq<PublicMeta>)
    returns (data: Option<Bytes>)
    requires suite.Sound() && Genuine(suite, file, plain, targets)
    requires forall m :: m in targets ==> m.id == slice
    ensures data == if exists m :: m in targets && Usable(suite, online, pull, m) then Some(plain(slice)) else None
  {
    data := None;
    for i := 0 to |targets|
      invariant data.None? && forall k :: 0 <= k < i ==> !Usable(suite, online, pull, targets[k])
    {
      var target := targets[i];
      assert target in targets;
      if target.node !in online { continue; }
      var r := pull(target.id, target.storIndex, target.node);
      if r.None? { continue; }
      if |r.value| != target.length { continue; }
      if suite.hash(r.value) != target.cipherHash { continue; }
      assert r.value == suite.encrypt(SliceKey(file, slice, target.node), plain(slice));
      var plainText := suite.recover(SliceKey(file, slice, target.node), r.value);
      if plainText.None? { continue; }
      data := plainText;
      break;
    }
  }

  // ---------------------------------------------------------------- the whole file

  function Plains(plain: SliceId -> Bytes, structure: seq<SliceId>): (bs: seq<Bytes>)
    ensures |bs| == |structure| && forall i :: 0 <= i < |bs| ==> bs[i] == plain(structure[i])
  {
    if structure == [] then [] else [plain(structure[0])] + Plains(plain, structure[1..])
  }

  ghost predicate Readable(suite: Suite, online: set<NodeId>, pull: Pull, metas: seq<PublicMeta>, x: SliceId) {
    exists m :: m in metas && m.id == x && Usable(suite, online, pull, m)
  }

  /** What Engine.Read makes of the joined slices. */
  function Finish(suite: Suite, file: FileId, length: nat, joined: Bytes, tail: Bytes): Result<Bytes, ReadError> {
    if length + 16 > |joined + tail| then Failure(OutOfRange)
    else
      var plain := suite.recover(FileKey(file), (joined + tail)[..length + 16]);
      if plain.Some? then Success(plain.value) else Failure(NotRecovered)
  }

  /** Which slices can be read: those with a replica whose node is online and gives back the very copy. */
  lemma ReadableExactly(suite: Suite, file: FileId, plain: SliceId -> Bytes, online: set<NodeId>, pull: Pull,
                        metas: seq<PublicMeta>, x: SliceId)
    requires suite.Sound() && Genuine(suite, file, plain, metas)
    ensures Readable(suite, online, pull, metas, x) <==>
            exists m :: m in metas && m.id == x && m.node in online
                        && pull(x, m.storIndex, m.node) == Some(suite.encrypt(SliceKey(file, x, m.node), plain(x)))
  {
    if m :| m in metas && m.id == x && Usable(suite, online, pull, m) {
      var copy := suite.encrypt(SliceKey(file, x, m.node), plain(x));
      assert suite.hash(pull(x, m.storIndex, m.node).value) == suite.hash(copy);
      assert pull(x, m.storIndex, m.node) == Some(copy);
    }
    if m :| m in metas && m.id == x && m.node in online
            && pull(x, m.storIndex, m.node) == Some(suite.encrypt(SliceKey(file, x, m.node), plain(x))) {
      assert Usable(suite, online, pull, m);
    }
  }

  method Fetch(suite: Suite, file: FileId, ghost plain: SliceId -> Bytes, online: set<NodeId>, pull: Pull,
               ghost metas: seq<PublicMeta>, pool: map<SliceId, seq<PublicMeta>>, slice: SliceId)
    returns (data: Result<Bytes, ReadError>)
    requires suite.Sound() && Genuine(suite, file, plain, metas) && IsPool(pool, metas)
    ensures data.Success? <==> Readable(suite, online, pull, metas, slice)
    ensures data.Success? ==> data.value == plain(slice)
    ensures data.Failure? ==> data.error == BadStructure(slice) || data.error == SliceNotFound(slice)
  {
    if slice !in pool { return Failure(BadStructure(slice)); }
    var r := PullSlice(suite, file, plain, online, pull, slice, pool[slice]);
    data := if r.None? then Failure(SliceNotFound(slice)) else Success(r.value);
  }

  /** Every slice of the structure has a usable replica. */
  ghost predicate AllReadable(suite: Suite, online: set<NodeId>, pull: Pull, metas: seq<PublicMeta>,
                              structure: seq<SliceId>) {
    forall i :: 0 <= i < |structure| ==> Readable(suite, online, pull, metas, structure[i])
  }

  ghost predicate NamesUnreadable(e: ReadError, suite: Suite, online: set<NodeId>, pull: Pull,
                                  metas: seq<PublicMeta>, structure: seq<SliceId>) {
    (e.SliceNotFound? || e.BadStructure?)
    && e.slice in structure && !Readable(suite, online, pull, metas, e.slice)
  }

  const CONCURRENCY := 10

  /**
   The sliding window: up to CONCURRENCY slices beyond the last one delivered are pulled at a
   time and finish in any order, but they are delivered in the order of the structure. One
   slice that cannot be had stops it.
   */
  method Slide(suite: Suite, file: FileId, ghost plain: SliceId -> Bytes, online: set<NodeId>, pull: Pull,
               structure: seq<SliceId>, metas: seq<PublicMeta>)
    returns (r: Result<seq<Bytes>, ReadError>)
    requires suite.Sound() && Genuine(suite, file, plain, metas)
    ensures r.Success? <==> AllReadable(suite, online, pull, metas, structure)
    ensures r.Success? ==> r.value == Plains(plain, structure)
    ensures r.Failure? ==> NamesUnreadable(r.error, suite, online, pull, metas, structure)
  {
    var pool := MakeSlicesPool(metas);
    var sessions: seq<Option<Bytes>> := seq(|structure|, _ => None);
    var delivered: seq<Bytes> := [];
    while |delivered| < |structure|
      invariant |delivered| <= |structure| == |sessions|
      invariant forall i :: 0 <= i < |sessions| && sessions[i].Some? ==>
        sessions[i].value == plain(structure[i]) && Readable(suite, online, pull, metas, structure[i])
      invariant forall i :: 0 <= i < |delivered| ==> sessions[i] == Some(delivered[i])
      decreases Running(sessions) + |structure| - |delivered|
    {
      if
      case sessions[|delivered|].Some? =>
        delivered := delivered + [sessions[|delivered|].value];
      case InWindow(sessions, |delivered|) =>
        var i :| |delivered| <= i < |delivered| + CONCURRENCY && i < |sessions| && sessions[i].None?;
        var data := Fetch(suite, file, plain, online, pull, metas, pool, structure[i]);
        if data.Failure? { return Failure(data.error); }
        OneLessRunning(sessions, i, data.value);
        sessions := sessions[i := Some(data.value)];
    }
    assert delivered == Plains(plain, structure);
    return Success(delivered);
  }

  /** Some slice within the window is not there yet. */
  predicate InWindow(sessions: seq<Option<Bytes>>, delivered: nat) {
    exists i :: delivered <= i < delivered + CONCURRENCY && i < |sessions| && sessions[i].None?
  }

  function Running(sessions: seq<Option<Bytes>>): nat {
    if sessions == [] then 0 else Running(sessions[1..]) + if sessions[0].None? then 1 else 0
  }

  lemma {:induction false} OneLessRunning(sessions: seq<Option<Bytes>>, i: nat, b: Bytes)
    requires i < |sessions| && sessions[i].None?
    ensures Running(sessions[i := Some(b)]) < Running(sessions)
  {
    if i == 0 {
      assert sessions[0 := Some(b)][1..] == sessions[1..];
    } else {
      OneLessRunning(sessions[1..], i - 1, b);
      assert sessions[i := Some(b)][1..] == sessions[1..][i - 1 := Some(b)];
    }
  }

  /** What decrypting these bytes under the file's key gives: what they are the encryption of, or an error. */
  ghost predicate Decrypts(suite: Suite, file: FileId, cipher: Bytes, r: Result<Bytes, ReadError>) {
    match r
    case Success(content) => cipher == suite.encrypt(FileKey(file), content)
    case Failure(e) => e == NotRecovered && forall p :: suite.encrypt(FileKey(file), p) != cipher
  }

  /** The buffer cut to the recorded length, if it has as many bytes, is decrypted. */
  ghost predicate CutAndDecrypts(suite: Suite, file: FileId, length: nat, buffer: Bytes, r: Result<Bytes, ReadError>) {
    if length + 16 > |buffer| then r == Failure(OutOfRange)
    else Decrypts(suite, file, buffer[..length + 16], r)
  }

  lemma FinishDecrypts(suite: Suite, file: FileId, length: nat, joined: Bytes, tail: Bytes)
    requires suite.Sound()
    ensures CutAndDecrypts(suite, file, length, joined + tail, Finish(suite, file, length, joined, tail))
  {
    if length + 16 <= |joined + tail| { RecoveredDecrypts(suite, file, (joined + tail)[..length + 16]); }
  }

  lemma RecoveredDecrypts(suite: Suite, file: FileId, cipher: Bytes)
    requires suite.Sound()
    ensures Decrypts(suite, file, cipher, Recovered(suite, file, cipher))
  {
    if suite.recover(FileKey(file), cipher).None? {
      forall p ensures suite.encrypt(FileKey(file), p) != cipher {
        assert suite.recover(FileKey(file), suite.encrypt(FileKey(file), p)) == Some(p);
      }
    }
  }

  /** Engine.Read. An empty structure, on which the source waits for ever, does not occur. */
  method Read(suite: Suite, file: FileId, ghost plain: SliceId -> Bytes, online: set<NodeId>, pull: Pull,
              structure: seq<SliceId>, metas: seq<PublicMeta>, length: nat, tail: Bytes)
    returns (r: Result<Bytes, ReadError>)
    requires suite.Sound() && Genuine(suite, file, plain, metas) && structure != []
    ensures AllReadable(suite, online, pull, metas, structure) ==>
              r == Finish(suite, file, length, JoinTrimmed(Plains(plain, structure)), tail)
              && CutAndDecrypts(suite, file, length, JoinTrimmed(Plains(plain, structure)) + tail, r)
    ensures !AllReadable(suite, online, pull, metas, structure) ==>
              r.Failure? && NamesUnreadable(r.error, suite, online, pull, metas, structure)
  {
    var slices := Slide(suite, file, plain, online, pull, structure, metas);
    if slices.Failure? { return Failure(slices.error); }
    var joined := Join(slices.value);
    FinishDecrypts(suite, file, length, joined, tail);
    r := Finish(suite, file, length, joined, tail);
  }

  method Join(bs: seq<Bytes>) returns (joined: Bytes)
    ensures joined == JoinTrimmed(bs)
  {
    joined := [];
    for i := 0 to |bs|
      invariant joined == JoinTrimmed(bs[..i])
    {
      JoinTrimmedAppend(bs[..i], bs[i]);
      assert bs[..i + 1] == bs[..i] + [bs[i]];
      joined := joined + TrimRight(bs[i]);
    }
    assert bs[..|bs|] == bs;
  }

  lemma {:induction false} JoinTrimmedAppend(bs: seq<Bytes>, b: Bytes)
    ensures JoinTrimmed(bs + [b]) == JoinTrimmed(bs) + TrimRight(b)
  {
    if bs != [] {
      assert (bs + [b])[1..] == bs[1..] + [b];
      JoinTrimmedAppend(bs[1..], b);
    }
  }

  /** recoverFile of the executor: nothing is cut, only the last slice is trimmed. */
  method RecoverFile(suite: Suite, file: FileId, ghost plain: SliceId -> Bytes, online: set<NodeId>, pull: Pull,
                     structure: seq<SliceId>, metas: seq<PublicMeta>)
    returns (r: Result<Bytes, ReadError>)
    requires suite.Sound() && Genuine(suite, file, plain, metas) && structure != []
    ensures AllReadable(suite, online, pull, metas, structure) ==>
              r == Recovered(suite, file, JoinLastTrimmed(Plains(plain, structure)))
              && Decrypts(suite, file, JoinLastTrimmed(Plains(plain, structure)), r)
    ensures !AllReadable(suite, online, pull, metas, structure) ==>
              r.Failure? && NamesUnreadable(r.error, suite, online, pull, metas, structure)
  {
    var slices := Slide(suite, file, plain, online, pull, structure, metas);
    if slices.Failure? { return Failure(slices.error); }
    var joined: Bytes := [];
    for i := 0 to |structure|
      invariant joined == JoinUpTo(Plains(plain, structure), i)
    {
      joined := joined + if i != |structure| - 1 then slices.value[i] else TrimRight(slices.value[i]);
    }
    JoinUpToAll(Plains(plain, structure));
    RecoveredDecrypts(suite, file, joined);
    r := Recovered(suite, file, joined);
  }

  function Recovered(suite: Suite, file: FileId, cipher: Bytes): Result<Bytes, ReadError> {
    var plain := suite.recover(FileKey(file), cipher);
    if plain.Some? then Success(plain.value) else Failure(NotRecovered)
  }

  /** The first `n` slices joined, the last of all trimmed. */
  function JoinUpTo(bs: seq<Bytes>, n: nat): Bytes
    requires n <= |bs|
  {
    if n == 0 then [] else JoinUpTo(bs, n - 1) + if n != |bs| then bs[n - 1] else TrimRight(bs[n - 1])
  }

  lemma {:induction false} JoinUpToRest(bs: seq<Bytes>, n: nat)
    requires n <= |bs|
    ensures JoinUpTo(bs, n) + JoinLastTrimmed(bs[n..]) == JoinUpTo(bs, |bs|)
    decreases |bs| - n
  {
    if n < |bs| {
      JoinUpToRest(bs, n + 1);
      assert bs[n..][1..] == bs[n + 1..] && bs[n..][0] == bs[n];
    }
  }

  lemma {:induction false} JoinUpToAll(bs: seq<Bytes>)
    ensures JoinLastTrimmed(bs) == JoinUpTo(bs, |bs|)
  {
    JoinUpToRest(bs, 0);
    assert bs[0..] == bs;
  }
}
