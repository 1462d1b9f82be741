/**
 One party of the private set intersection.

 `View` is what a party remembers of the protocol. Both implementations are proved
 against it: the pairwise one for any number of parties, whose stored sets are
 written once, and the one for two parties, which works with the latest set it was
 sent. The protocol over all parties is in module PsiRun.
 */
module PsiParty {
  import opened Wrappers
  import opened Sequences
  import opened PsiSets
  import Text

  /** The bytes of a message: a marshalled set, or something that does not parse. */
  datatype Blob = Marshalled(ids: EncSet) | Garbage

  datatype View = View(
    rows: seq<Row>,
    ids: seq<Id>,
    reEnc: map<Party, Blob>,      // own IDs, re-encrypted by the others
    finals: map<Party, Blob>,     // the others' IDs, re-encrypted here
    result: Option<Aligned>)

  datatype PsiError = UnreadableFile | UnreadableRequest | UnreadableParts | Unarranged

  function LoadOrStore<V>(m: map<Party, V>, p: Party, v: V): map<Party, V> {
    if p in m then m else m[p := v]
  }

  /** Own samples are read once the own IDs are encrypted. */
  ghost predicate Loads(v: View, w: View, file: seq<Row>, name: string) {
    Readable(file, name) && w == v.(rows := file, ids := IdsIn(file, name))
  }

  function StoreReEnc(v: View, others: set<Party>, p: Party, b: Blob): View {
    if p in others then v.(reEnc := LoadOrStore(v.reEnc, p, b)) else v
  }

  function ReplaceReEnc(v: View, others: set<Party>, p: Party, b: Blob): View {
    if p in others then v.(reEnc := v.reEnc[p := b]) else v
  }

  function StoreFinal(v: View, others: set<Party>, p: Party, b: Blob): View {
    if p in others then v.(finals := LoadOrStore(v.finals, p, b)) else v
  }

  ghost predicate Ready(v: View, p: Party) {
    p in v.reEnc && p in v.finals && v.reEnc[p].Marshalled? && v.finals[p].Marshalled?
  }

  ghost predicate AllReady(v: View, others: set<Party>) {
    forall p :: p in others ==> Ready(v, p)
  }

  ghost predicate ChosenWith(v: View, p: Party, x: Id)
    requires Ready(v, p)
  {
    Chosen(x, v.ids, v.reEnc[p].ids, v.finals[p].ids)
  }

  /** Chosen in the intersection with every other party. */
  ghost predicate InCommon(v: View, others: set<Party>, x: Id)
    requires AllReady(v, others)
  {
    forall p :: p in others ==> ChosenWith(v, p, x)
  }

  ghost predicate SomeInCommon(v: View, others: set<Party>)
    requires AllReady(v, others)
  {
    exists x :: InCommon(v, others, x)
  }

  /** What the source needs of the sets it was sent: an index beyond the own list panics. */
  ghost predicate Indexed(v: View, others: set<Party>) {
    forall p :: p in others && Ready(v, p) ==> InRange(v.ids, v.reEnc[p].ids, v.finals[p].ids)
  }

  ghost predicate Unambiguous(v: View, others: set<Party>)
    requires Indexed(v, others)
  {
    forall p :: p in others && Ready(v, p) ==> Separates(v.ids, v.reEnc[p].ids, v.finals[p].ids)
  }

  ghost predicate Lines(v: View, name: string) {
    if v.rows == [] then v.ids == [] else Readable(v.rows, name) && v.ids == IdsIn(v.rows, name)
  }

  ghost predicate GoodResult(v: View, others: set<Party>, name: string, a: Aligned)
    requires Lines(v, name) && AllReady(v, others) && Indexed(v, others)
  {
    && v.rows != []
    && (forall x :: x in a.ids <==> InCommon(v, others, x))
    && Text.Sorted(a.ids)
    && (Unambiguous(v, others) ==> Text.Ascending(a.ids))
    && Arranged(a.rows, v.rows, name, a.ids)
  }

  /** One attempt to intersect: once there is a result it stays, and there is one as soon as
      all sets have come and they have an ID in common. */
  ghost predicate Intersects(v: View, w: View, others: set<Party>, name: string)
    requires Lines(v, name) && Indexed(v, others)
  {
    && w == v.(result := w.result)
    && (v.result.Some? ==> w == v)
    && (v.result.None? ==>
          (w.result.Some? <==> AllReady(v, others) && SomeInCommon(v, others)))
    && (v.result.None? && w.result.Some? ==> GoodResult(v, others, name, w.result.value))
  }

  /** What the caller of an attempt is told. */
  ghost predicate Tells(v: View, others: set<Party>, r: Result<Option<Aligned>, PsiError>) {
    match r
    case Success(a) => a == v.result && (a.None? ==> !AllReady(v, others))
    case Failure(UnreadableParts) =>
      exists p :: p in others && p in v.reEnc && p in v.finals && !Ready(v, p)
    case Failure(e) => e == Unarranged && AllReady(v, others) && v.result.None?
  }

  /** A party re-encrypts whatever it is asked to, also for strangers. */
  ghost predicate Answers(ask: Blob, known: bool, me: Party, r: Result<Blob, PsiError>) {
    match ask
    case Marshalled(s) => r.Success? && r.value.Marshalled? && ReEncrypts(r.value.ids, s, me)
    case Garbage => if known then r == Failure(UnreadableRequest) else r == Success(Garbage)
  }

  method Answer(ask: Blob, known: bool, me: Party) returns (r: Result<Blob, PsiError>)
    ensures Answers(ask, known, me, r)
  {
    match ask
    case Marshalled(s) =>
      var ids := ReEncryptIdSet(s, me);
      r := Success(Marshalled(ids));
    case Garbage =>
      r := if known then Failure(UnreadableRequest) else Success(Garbage);
  }

  method IntersectTwoParts(ids: seq<Id>, local: Blob, other: Blob) returns (r: Result<seq<Id>, PsiError>)
    requires local.Marshalled? && other.Marshalled? ==> InRange(ids, local.ids, other.ids)
    ensures r == Failure(UnreadableParts) || r.Success?
    ensures r.Success? <==> local.Marshalled? && other.Marshalled?
    ensures r.Success? ==> forall x :: x in r.value <==> Chosen(x, ids, local.ids, other.ids)
    ensures r.Success? && Separates(ids, local.ids, other.ids) ==> Distinct(r.value)
  {
    if local.Garbage? || other.Garbage? { return Failure(UnreadableParts); }
    var common := Intersect(ids, local.ids, other.ids);
    return Success(common);
  }

  /** `w` is the intersection with `p` alone. */
  ghost predicate IsMiddle(v: View, p: Party, w: seq<Id>) {
    && Ready(v, p) && InRange(v.ids, v.reEnc[p].ids, v.finals[p].ids)
    && (forall x :: x in w <==> ChosenWith(v, p, x))
    && (Separates(v.ids, v.reEnc[p].ids, v.finals[p].ids) ==> Distinct(w))
  }

  /** `w` is the intersection with all of `ps`. */
  ghost predicate Common(v: View, ps: set<Party>, w: seq<Id>) {
    && AllReady(v, ps) && Indexed(v, ps)
    && (forall x :: x in w <==> InCommon(v, ps, x))
    && (Unambiguous(v, ps) ==> Distinct(w))
  }

  lemma CommonStarts(v: View, p: Party, w: seq<Id>)
    requires IsMiddle(v, p, w)
    ensures Common(v, {p}, w)
  {
    forall x ensures x in w <==> InCommon(v, {p}, x) {
      assert InCommon(v, {p}, x) <==> ChosenWith(v, p, x);
    }
    assert Unambiguous(v, {p}) ==> Separates(v.ids, v.reEnc[p].ids, v.finals[p].ids);
  }

  lemma CommonGrows(v: View, ps: set<Party>, w: seq<Id>, p: Party, middle: seq<Id>, both: seq<Id>)
    requires Common(v, ps, w) && IsMiddle(v, p, middle)
    requires forall x :: x in both <==> x in w && x in middle
    requires Distinct(w) ==> Distinct(both)
    ensures Common(v, ps + {p}, both)
  {
    forall x ensures x in both <==> InCommon(v, ps + {p}, x) {
      assert InCommon(v, ps + {p}, x) <==> InCommon(v, ps, x) && ChosenWith(v, p, x);
    }
    assert Unambiguous(v, ps + {p}) ==> Unambiguous(v, ps);
  }

  ghost predicate Middles(v: View, others: set<Party>, middle: map<Party, seq<Id>>) {
    forall p :: p in middle ==> p in others && IsMiddle(v, p, middle[p])
  }

  /** The IDs in all entries, the parties taken in any order. */
  method IntersectAll(parties: set<Party>, middle: map<Party, seq<Id>>, ghost v: View) returns (common: seq<Id>)
    requires parties != {} && Middles(v, parties, middle) && forall p :: p in parties ==> p in middle
    ensures Common(v, parties, common)
  {
    var party :| party in parties;
    common := middle[party];
    var todo := parties - {party};
    ghost var merged := {party};
    CommonStarts(v, party, common);
    while todo != {}
      invariant merged + todo == parties
      invariant Common(v, merged, common)
      decreases todo
    {
      party :| party in todo;
      assert IsMiddle(v, party, middle[party]);
      ghost var was := common;
      common := GetIntersection(common, middle[party]);
      CommonGrows(v, merged, was, party, middle[party], common);
      merged, todo := merged + {party}, todo - {party};
    }
    assert merged == parties;
  }

  /** The arranged file is right, and it is there exactly when something is in common. */
  lemma {:induction false} Concludes(v: View, w: View, others: set<Party>, name: string, common: seq<Id>,
                                     r: Result<Aligned, FileError>)
    requires Lines(v, name) && others != {} && Common(v, others, common) && v.result.None?
    requires r.Success? <==> Readable(v.rows, name) && common != []
    requires r.Success? ==> r.value.ids == Text.Sort(common) && Arranged(r.value.rows, v.rows, name, r.value.ids)
    requires w == if r.Success? then v.(result := Some(r.value)) else v
    ensures Intersects(v, w, others, name)
  {
    Text.SortMembers(common);
    if common != [] {
      assert common[0] in common && InCommon(v, others, common[0]);
      var p :| p in others;
      assert ChosenWith(v, p, common[0]);
    }
    if x :| InCommon(v, others, x) {
      assert x in common;
    }
  }

  /** All but the result is as before. */
  lemma ResultAside(v: View, w: View, others: set<Party>, name: string, middle: map<Party, seq<Id>>)
    requires w == v.(result := w.result)
    requires Lines(v, name) && Middles(v, others, middle)
    ensures Lines(w, name) && Middles(w, others, middle)
    ensures AllReady(v, others) <==> AllReady(w, others)
  {
    assert forall p :: Ready(v, p) <==> Ready(w, p);
    forall p | p in middle ensures IsMiddle(w, p, middle[p]) {
      assert IsMiddle(v, p, middle[p]);
      assert forall x :: ChosenWith(v, p, x) <==> ChosenWith(w, p, x);
    }
  }

  function Resulting(v: View, r: Result<Aligned, PsiError>): View {
    if r.Success? then v.(result := Some(r.value)) else v
  }

  /** Arranges the file by the common IDs, which ends a successful attempt. */
  method Arrange(rows: seq<Row>, name: string, common: seq<Id>, ghost v: View, ghost others: set<Party>)
    returns (r: Result<Aligned, PsiError>)
    requires Lines(v, name) && rows == v.rows && Table(rows) && v.result.None?
    requires others != {} && Common(v, others, common)
    ensures Intersects(v, Resulting(v, r), others, name)
    ensures r.Failure? ==> r.error == Unarranged
  {
    var arranged := RearrangeFile(rows, name, common);
    r := if arranged.Success? then Success(arranged.value) else Failure(Unarranged);
    Concludes(v, Resulting(v, r), others, name, common, arranged);
  }

  class VlPsiByPairs {
    const me: Party
    const file: seq<Row>
    const idName: string
    const parties: set<Party>   // the others

    var rows: seq<Row>
    var ids: seq<Id>
    var reEncIdSets: map<Party, Blob>
    var finalReEncIdSets: map<Party, Blob>
    var middleIntersect: map<Party, seq<Id>>
    var done: bool
    var newRows: seq<Row>
    var intersect: seq<Id>

    ghost function Seen(): View
      reads this
    {
      View(rows, ids, reEncIdSets, finalReEncIdSets,
           if done then Some(Aligned(newRows, intersect)) else None)
    }

    ghost predicate Valid()
      reads this
    {
      && parties != {} && Table(file)
      && (rows == [] || rows == file) && Lines(Seen(), idName)
      && Middles(Seen(), parties, middleIntersect)
    }

    constructor (me: Party, file: seq<Row>, idName: string, parties: set<Party>)
      requires parties != {} && Table(file)
      ensures Valid() && Seen() == View([], [], map[], map[], None)
      ensures this.me == me && this.file == file && this.idName == idName && this.parties == parties
    {
      this.me, this.file, this.idName, this.parties := me, file, idName, parties;
      rows, ids, reEncIdSets, finalReEncIdSets := [], [], map[], map[];
      middleIntersect, done, newRows, intersect := map[], false, [], [];
    }

    /** Reads the file, and encrypts its IDs under the own key. */
    method EncryptSampleIdSet() returns (r: Result<EncSet, PsiError>)
      requires Valid()
      modifies `rows, `ids
      ensures r.Success? <==> Readable(file, idName)
      ensures r.Failure? ==> r.error == UnreadableFile && Seen() == old(Seen())
      ensures r.Success? ==> Loads(old(Seen()), Seen(), file, idName) && Encrypts(r.value, ids, multiset{me})
      ensures Valid()
    {
      var read := RetrieveIds(file, idName);
      if read.Failure? { return Failure(UnreadableFile); }
      ids, rows := read.value, file;
      var enc := PsiSets.EncryptSampleIdSet(ids, me);
      return Success(enc);
    }

    method SetReEncryptIdSet(party: Party, b: Blob) returns (known: bool)
      requires Valid()
      modifies `reEncIdSets
      ensures Valid() && Seen() == StoreReEnc(old(Seen()), parties, party, b)
      ensures known <==> party in parties
    {
      if party !in parties { return false; }
      reEncIdSets := LoadOrStore(reEncIdSets, party, b);
      return true;
    }

    method ReEncryptIdSet(party: Party, ask: Blob) returns (r: Result<Blob, PsiError>)
      ensures Answers(ask, party in parties, me, r)
    {
      r := Answer(ask, party in parties, me);
    }

    method SetOtherFinalReEncryptIdSet(party: Party, b: Blob)
      requires Valid()
      modifies `finalReEncIdSets
      ensures Valid() && Seen() == StoreFinal(old(Seen()), parties, party, b)
    {
      if party !in parties { return; }
      finalReEncIdSets := LoadOrStore(finalReEncIdSets, party, b);
    }

    method IntersectParts() returns (r: Result<Option<Aligned>, PsiError>)
      requires Valid() && Indexed(Seen(), parties)
      modifies `middleIntersect, `done, `newRows, `intersect
      ensures Valid()
      ensures Intersects(old(Seen()), Seen(), parties, idName)
      ensures Tells(Seen(), parties, r)
    {
      if done { return Success(Some(Aligned(newRows, intersect))); }
      var stopped := IntersectByPairs();
      if stopped.Some? { return stopped.value; }
      ghost var v := Seen();
      var common := IntersectAll(parties, middleIntersect, v);
      intersect := common;
      var arranged := Arrange(rows, idName, common, v, parties);
      ResultAside(v, Resulting(v, arranged), parties, idName, middleIntersect);
      if arranged.Failure? { return Failure(arranged.error); }
      newRows, intersect, done := arranged.value.rows, arranged.value.ids, true;
      assert Seen() == Resulting(v, arranged);
      return Success(Some(arranged.value));
    }

    /** Fills in the intersections with the others, in any order, until a set is missing or does not parse. */
    method IntersectByPairs() returns (stopped: Option<Result<Option<Aligned>, PsiError>>)
      requires Valid() && Indexed(Seen(), parties) && !done
      modifies `middleIntersect
      ensures Valid() && Seen() == old(Seen())
      ensures stopped.None? ==> forall p :: p in parties ==> p in middleIntersect
      ensures stopped.Some? ==> !AllReady(Seen(), parties) && Tells(Seen(), parties, stopped.value)
    {
      var todo := parties;
      while todo != {}
        invariant todo <= parties
        invariant Middles(Seen(), parties, middleIntersect)
        invariant forall p :: p in parties && p !in todo ==> p in middleIntersect
      {
        var party :| party in todo;
        if party !in reEncIdSets || party !in finalReEncIdSets { return Some(Success(None)); }
        var part := IntersectTwoParts(ids, reEncIdSets[party], finalReEncIdSets[party]);
        if part.Failure? { return Some(Failure(UnreadableParts)); }
        assert IsMiddle(Seen(), party, part.value);
        middleIntersect := LoadOrStore(middleIntersect, party, part.value);
        todo := todo - {party};
      }
      return None;
    }
  }

  class VlTwoPartsPsi {
    const me: Party
    const file: seq<Row>
    const idName: string
    const other: Party

    var rows: seq<Row>
    var ids: seq<Id>
    var finalReEncIds: Option<Blob>
    var reEncIdSets: map<Party, Blob>
    var finalReEncIdSets: map<Party, Blob>
    var done: bool
    var newRows: seq<Row>
    var intersect: seq<Id>

    ghost function Seen(): View
      reads this
    {
      View(rows, ids, if finalReEncIds.Some? then map[other := finalReEncIds.value] else map[], finalReEncIdSets,
           if done then Some(Aligned(newRows, intersect)) else None)
    }

    ghost predicate Valid()
      reads this
    {
      && Table(file)
      && (rows == [] || rows == file) && Lines(Seen(), idName)
      && (other in reEncIdSets <==> finalReEncIds.Some?)
    }

    constructor (me: Party, file: seq<Row>, idName: string, other: Party)
      requires Table(file)
      ensures Valid() && Seen() == View([], [], map[], map[], None)
      ensures this.me == me && this.file == file && this.idName == idName && this.other == other
    {
      this.me, this.file, this.idName, this.other := me, file, idName, other;
      rows, ids, finalReEncIds, reEncIdSets, finalReEncIdSets := [], [], None, map[], map[];
      done, newRows, intersect := false, [], [];
    }

    /** The first set is remembered, but the latest one is worked with. */
    method SetReEncryptIdSet(party: Party, b: Blob) returns (known: bool)
      requires Valid()
      modifies `reEncIdSets, `finalReEncIds
      ensures Valid() && Seen() == ReplaceReEnc(old(Seen()), {other}, party, b)
      ensures known <==> party == other
    {
      if party != other { return false; }
      reEncIdSets := LoadOrStore(reEncIdSets, party, b);
      finalReEncIds := Some(b);
      assert Seen().reEnc == old(Seen()).reEnc[party := b];
      return true;
    }

    method IntersectParts() returns (r: Result<Option<Aligned>, PsiError>)
      requires Valid() && Indexed(Seen(), {other})
      modifies `done, `newRows, `intersect
      ensures Valid()
      ensures Intersects(old(Seen()), Seen(), {other}, idName)
      ensures Tells(Seen(), {other}, r)
    {
      if done { return Success(Some(Aligned(newRows, intersect))); }
      if other !in reEncIdSets || other !in finalReEncIdSets { return Success(None); }
      ghost var v := Seen();
      assert Ready(v, other) || v.reEnc[other].Garbage? || v.finals[other].Garbage?;
      var part := IntersectTwoParts(ids, finalReEncIds.value, finalReEncIdSets[other]);
      if part.Failure? { return Failure(UnreadableParts); }
      CommonStarts(v, other, part.value);
      var arranged := Arrange(rows, idName, part.value, v, {other});
      if arranged.Failure? { return Failure(arranged.error); }
      newRows, intersect, done := arranged.value.rows, arranged.value.ids, true;
      assert Seen() == Resulting(v, arranged);
      return Success(Some(arranged.value));
    }
  }
}
