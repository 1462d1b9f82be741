/**
 Runs of the private set intersection that reach a result, driven by the class of a party.

 `Rehearse` runs one party's object through the protocol with all others, and every call of it
 is a step of a run: the class does what the protocol of module PsiRun lets a party do.
 */
module PsiRehearsal {
  import opened Wrappers
  import opened PsiSets
  import opened PsiParty
  import opened PsiRun
  import Text

  function Fresh(): View { View([], [], map[], map[], None) }

  function Start(parties: set<Party>): Net { Net(map p | p in parties :: Fresh(), {}) }

  /** The network after one party's view and the messages have changed. */
  function Moved(s: Net, p: Party, w: View, sent: set<Msg>): Net { Net(s.views[p := w], sent) }

  /** Some run leads to this network. */
  ghost predicate Reached(c: Config, s: Net)
    requires c.Valid()
  {
    exists states, actions :: Run(c, states, actions) && states[|actions|] == s
  }

  lemma Begin(c: Config)
    requires c.Valid()
    ensures Reached(c, Start(c.files.Keys))
  {
    var s := Start(c.files.Keys);
    assert s.views.Keys == c.files.Keys;
    assert Run(c, [s], []);
  }

  lemma RunGrows(c: Config, states: seq<Net>, actions: seq<Action>, a: Action, t: Net)
    requires c.Valid() && Run(c, states, actions) && Next(c, a, states[|actions|], t)
    ensures Run(c, states + [t], actions + [a])
  {
    var states', actions' := states + [t], actions + [a];
    assert states'[0] == states[0];
    forall i | 0 <= i < |actions'| ensures Next(c, actions'[i], states'[i], states'[i + 1]) {
      StepKept(c, states, actions, a, t, i);
    }
  }

  lemma ReachedNext(c: Config, states: seq<Net>, actions: seq<Action>, a: Action, t: Net)
    requires c.Valid() && Run(c, states, actions) && Next(c, a, states[|actions|], t)
    ensures Reached(c, t)
  {
    RunGrows(c, states, actions, a, t);
    ReachedBy(c, states + [t], actions + [a], t);
  }

  lemma ReachedBy(c: Config, states: seq<Net>, actions: seq<Action>, s: Net)
    requires c.Valid() && Run(c, states, actions) && states[|actions|] == s
    ensures Reached(c, s)
  {
  }

  lemma StepKept(c: Config, states: seq<Net>, actions: seq<Action>, a: Action, t: Net, i: nat)
    requires c.Valid() && |states| == |actions| + 1 && i <= |actions|
    requires i < |actions| ==> Next(c, actions[i], states[i], states[i + 1])
    requires Next(c, a, states[|actions|], t)
    ensures Next(c, (actions + [a])[i], (states + [t])[i], (states + [t])[i + 1])
  {
  }

  lemma MovedIsNext(c: Config, s: Net, a: Action, w: View, sent: set<Msg>)
    requires c.Valid() && a.p in c.files && s.views.Keys == c.files.Keys
    requires Step(c, a, s.views[a.p], w, s.sent, sent)
    ensures Next(c, a, s, Moved(s, a.p, w, sent)) && Moved(s, a.p, w, sent).views.Keys == c.files.Keys
  {
    assert Moved(s, a.p, w, sent).views.Keys == s.views.Keys;
  }

  lemma Extend(c: Config, s: Net, a: Action, w: View, sent: set<Msg>) returns (t: Net)
    requires c.Valid() && Reached(c, s) && a.p in c.files && s.views.Keys == c.files.Keys
    requires Step(c, a, s.views[a.p], w, s.sent, sent)
    ensures Reached(c, t) && t == Moved(s, a.p, w, sent) && t.views.Keys == c.files.Keys
  {
    t := Moved(s, a.p, w, sent);
    MovedIsNext(c, s, a, w, sent);
    var states, actions :| Run(c, states, actions) && states[|actions|] == s;
    ReachedNext(c, states, actions, a, t);
  }

  // ---------------------------------------------------------------- calls of a party's object are steps

  /** `me` is a party's object in this network. */
  ghost predicate Plays(c: Config, me: VlPsiByPairs, s: Net)
    requires c.Valid()
    reads me
  {
    && me.Valid() && me.me in c.files && s.views.Keys == c.files.Keys && s.views[me.me] == me.Seen()
    && me.file == c.files[me.me] && me.idName == c.names[me.me] && me.parties == c.Others(me.me)
  }

  method EncryptBy(ghost c: Config, me: VlPsiByPairs, ghost s: Net) returns (ask: Blob, ghost t: Net)
    requires c.Valid() && Reached(c, s) && Plays(c, me, s)
    modifies me
    ensures Reached(c, t) && Plays(c, me, t) && ask.Marshalled?
    ensures me.Seen() == old(me.Seen()).(rows := me.file, ids := c.Ids(me.me))
    ensures t == Moved(s, me.me, me.Seen(), s.sent + {Ask(me.me, ask)})
  {
    var enc := me.EncryptSampleIdSet();
    ask := Marshalled(enc.value);
    t := Extend(c, s, Encrypt(me.me, enc.value), me.Seen(), s.sent + {Ask(me.me, ask)});
  }

  method ServeBy(ghost c: Config, me: VlPsiByPairs, from: Party, ask: Blob, ghost s: Net)
    returns (reply: Blob, ghost t: Net)
    requires c.Valid() && Reached(c, s) && Plays(c, me, s)
    requires from in me.parties && ask.Marshalled? && Ask(from, ask) in s.sent
    modifies me
    ensures Reached(c, t) && Plays(c, me, t) && reply.Marshalled?
    ensures me.Seen() == StoreFinal(old(me.Seen()), me.parties, from, reply)
    ensures t == Moved(s, me.me, me.Seen(), s.sent + {Reply(me.me, from, reply)})
  {
    var answer := me.ReEncryptIdSet(from, ask);
    reply := answer.value;
    me.SetOtherFinalReEncryptIdSet(from, reply);
    t := Extend(c, s, Serve(me.me, from, ask, answer), me.Seen(), s.sent + {Reply(me.me, from, reply)});
  }

  method AcceptBy(ghost c: Config, me: VlPsiByPairs, from: Party, got: Blob, ghost s: Net) returns (ghost t: Net)
    requires c.Valid() && Reached(c, s) && Plays(c, me, s)
    requires from in me.parties && Reply(from, me.me, got) in s.sent
    modifies me
    ensures Reached(c, t) && Plays(c, me, t)
    ensures me.Seen() == StoreReEnc(old(me.Seen()), me.parties, from, got)
    ensures t == Moved(s, me.me, me.Seen(), s.sent)
  {
    var known := me.SetReEncryptIdSet(from, got);
    t := Extend(c, s, Accept(me.me, from, got), me.Seen(), s.sent);
  }

  lemma ReachedInv(c: Config, s: Net)
    requires c.Valid() && Reached(c, s)
    ensures Inv(c, s)
  {
    var states, actions :| Run(c, states, actions) && states[|actions|] == s;
    RunInv(c, states, actions, |actions|);
  }

  /** What an attempt needs holds of every network that can be reached. */
  lemma ReachedGood(c: Config, s: Net, p: Party)
    requires c.Valid() && Reached(c, s) && p in s.views
    ensures p in c.files && GoodView(c, p, s.views[p])
    ensures Lines(s.views[p], c.names[p]) && Indexed(s.views[p], c.Others(p))
  {
    ReachedInv(c, s);
    CommonIsShared(c, p, s.views[p]);
  }

  /** With all sets there, and an ID that all share, an attempt has the result. */
  method AttemptBy(ghost c: Config, me: VlPsiByPairs, ghost s: Net) returns (r: Aligned, ghost t: Net)
    requires c.Valid() && Reached(c, s) && Plays(c, me, s)
    requires AllReady(me.Seen(), me.parties) && me.Seen().result.None? && exists x :: c.Shared(x)
    modifies me
    ensures Reached(c, t) && Has(t, me.me, r) && Correct(c, me.me, r)
  {
    ghost var v := me.Seen();
    ReachedGood(c, s, me.me);
    var done := me.IntersectParts();
    AttemptDecides(c, me.me, v, me.Seen());
    r := done.value.value;
    t := Extend(c, s, Attempt(me.me), me.Seen(), s.sent);
  }

  // ---------------------------------------------------------------- a run that reaches a result

  /** Both sets of each of these parties are there, and no result yet. */
  ghost predicate Through(v: View, served: set<Party>) {
    v.result.None? && v.reEnc.Keys == served == v.finals.Keys && AllReady(v, served)
  }

  lemma ThroughMore(v: View, others: set<Party>, q: Party, got: Blob, mine: Blob, todo: set<Party>)
    requires Through(v, others - todo) && q in others && q in todo && got.Marshalled? && mine.Marshalled?
    ensures Through(StoreFinal(StoreReEnc(v, others, q, got), others, q, mine), others - (todo - {q}))
  {
    var w := StoreFinal(StoreReEnc(v, others, q, got), others, q, mine);
    assert others - (todo - {q}) == others - todo + {q};
    forall x | x in others - todo + {q} ensures Ready(w, x) {
      assert x != q ==> Ready(v, x);
    }
  }

  ghost predicate Waiting(s: Net, ps: set<Party>) {
    forall q :: q in ps ==> q in s.views && s.views[q] == Fresh()
  }

  lemma WaitingOn(s: Net, q: Party, w: View, sent: set<Msg>, p: Party, w': View, sent': set<Msg>, todo: set<Party>)
    requires Waiting(s, todo) && p !in todo
    ensures Waiting(Moved(Moved(s, q, w, sent), p, w', sent'), todo - {q})
  {
  }

  lemma MovedTwice(s: Net, p: Party, v: View, w: View, sent: set<Msg>, sent': set<Msg>)
    ensures Moved(Moved(s, p, v, sent), p, w, sent') == Moved(s, p, w, sent')
  {
  }

  /** `me` is through with all but the parties in `todo`, which have done nothing yet. */
  ghost predicate Underway(c: Config, me: VlPsiByPairs, s: Net, ask: Blob, todo: set<Party>)
    requires c.Valid()
    reads me
  {
    && Reached(c, s) && Plays(c, me, s) && ask.Marshalled? && Ask(me.me, ask) in s.sent
    && Through(me.Seen(), me.parties - todo) && Waiting(s, todo)
  }

  /** A party that has done nothing yet encrypts its IDs, and re-encrypts those of `p`. */
  method OtherJoins(c: Config, q: Party, p: Party, ask: Blob, ghost s: Net)
    returns (theirs: Blob, got: Blob, ghost w: View, ghost t: Net)
    requires c.Valid() && Reached(c, s) && s.views.Keys == c.files.Keys
    requires q in c.files && s.views[q] == Fresh()
    requires p in c.Others(q) && ask.Marshalled? && Ask(p, ask) in s.sent
    ensures Reached(c, t) && theirs.Marshalled? && got.Marshalled?
    ensures t == Moved(s, q, w, s.sent + {Ask(q, theirs)} + {Reply(q, p, got)})
  {
    assert Readable(c.files[q], c.names[q]);
    var other := new VlPsiByPairs(q, c.files[q], c.names[q], c.Others(q));
    theirs, t := EncryptBy(c, other, s);
    ghost var v := other.Seen();
    got, t := ServeBy(c, other, p, ask, t);
    w := other.Seen();
    MovedTwice(s, q, v, w, s.sent + {Ask(q, theirs)}, s.sent + {Ask(q, theirs)} + {Reply(q, p, got)});
  }

  /** `me` takes the reply of `q` and serves its request. */
  method MineJoins(ghost c: Config, me: VlPsiByPairs, q: Party, theirs: Blob, got: Blob, ghost s: Net)
    returns (mine: Blob, ghost t: Net)
    requires c.Valid() && Reached(c, s) && Plays(c, me, s) && q in me.parties
    requires theirs.Marshalled? && Ask(q, theirs) in s.sent && Reply(q, me.me, got) in s.sent
    modifies me
    ensures Reached(c, t) && Plays(c, me, t) && mine.Marshalled?
    ensures me.Seen() == StoreFinal(StoreReEnc(old(me.Seen()), me.parties, q, got), me.parties, q, mine)
    ensures t == Moved(s, me.me, me.Seen(), s.sent + {Reply(me.me, q, mine)})
  {
    t := AcceptBy(c, me, q, got, s);
    ghost var v := me.Seen();
    mine, t := ServeBy(c, me, q, theirs, t);
    MovedTwice(s, me.me, v, me.Seen(), s.sent, s.sent + {Reply(me.me, q, mine)});
  }

  method Exchange(c: Config, me: VlPsiByPairs, ask: Blob, q: Party, ghost todo: set<Party>, ghost s: Net)
    returns (ghost t: Net)
    requires c.Valid() && Underway(c, me, s, ask, todo) && q in todo && todo <= me.parties
    modifies me
    ensures Underway(c, me, t, ask, todo - {q})
  {
    ghost var v := me.Seen();
    var theirs, got, mine;
    ghost var w;
    theirs, got, w, t := OtherJoins(c, q, me.me, ask, s);
    ghost var sent := t.sent;
    mine, t := MineJoins(c, me, q, theirs, got, t);
    WaitingOn(s, q, w, sent, me.me, me.Seen(), t.sent, todo);
    ThroughMore(v, me.parties, q, got, mine, todo);
  }

  method ExchangeAll(c: Config, me: VlPsiByPairs, ask: Blob, ghost s: Net) returns (ghost t: Net)
    requires c.Valid() && Underway(c, me, s, ask, me.parties)
    modifies me
    ensures Underway(c, me, t, ask, {})
  {
    t := s;
    var todo := me.parties;
    while todo != {}
      invariant todo <= me.parties && Underway(c, me, t, ask, todo)
    {
      var q :| q in todo;
      t := Exchange(c, me, ask, q, todo, t);
      todo := todo - {q};
    }
  }

  /** For any parties with an ID that all share, and any of them, some run gives it the result. */
  method Rehearse(c: Config, p: Party) returns (r: Aligned, ghost s: Net)
    requires c.Valid() && p in c.files && exists x :: c.Shared(x)
    ensures Reached(c, s) && Has(s, p, r) && Correct(c, p, r)
  {
    SharedAmongOthers(c, p, "");
    Begin(c);
    s := Start(c.files.Keys);
    assert Readable(c.files[p], c.names[p]);
    var me := new VlPsiByPairs(p, c.files[p], c.names[p], c.Others(p));
    var ask;
    ask, s := EncryptBy(c, me, s);
    s := ExchangeAll(c, me, ask, s);
    r, s := AttemptBy(c, me, s);
  }

  /** The two parties whose samples are "b" and "a": a run ends with "a" before "b". */
  method OwnOrderRun() returns (c: Config, r: Aligned, ghost s: Net)
    ensures c.Valid() && "P" in c.files && c.Ids("P") == ["b", "a"]
    ensures Reached(c, s) && Has(s, "P", r) && r.ids == ["a", "b"]
  {
    var f: seq<Row> := [["id"], ["b"], ["a"]];
    c := Config(map["P" := f, "Q" := f], map["P" := "id", "Q" := "id"]);
    TwoSamples(f);
    TwoParties(c, f);
    assert "b" in c.Ids("P");
    r, s := Rehearse(c, "P");
    SortedShared(c, r);
  }

  lemma SortedShared(c: Config, r: Aligned)
    requires c.Valid() && "P" in c.files && c.Ids("P") == ["b", "a"] && Correct(c, "P", r)
    requires forall x :: x in c.Ids("P") ==> c.Shared(x)
    ensures r.ids == ["a", "b"]
  {
    assert Text.Less("a", "b");
    assert "a" in c.Ids("P") && "b" in c.Ids("P");
    Text.SortsUnique(r.ids, ["a", "b"], {"a", "b"});
  }
}
