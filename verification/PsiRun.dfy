/**
 The private set intersection among any number of parties.

 Messages that were sent stay available, so each may arrive at any time, any number
 of times or never. A stranger may send anything at any time; the parties themselves
 follow the protocol. A step changes one party's view the way its class does.
 */
module PsiRun {
  import opened Wrappers
  import opened PsiSets
  import opened PsiParty
  import Text

  /** The parties, with the sample file and the name of the ID column of each. */
  datatype Config = Config(files: map<Party, seq<Row>>, names: map<Party, string>) {
    ghost predicate Valid() {
      && |files| >= 2 && names.Keys == files.Keys
      && forall p {:trigger Readable(files[p], names[p])} :: p in files ==> Readable(files[p], names[p])
    }

    function Others(p: Party): set<Party> { files.Keys - {p} }

    ghost function Ids(p: Party): seq<Id>
      requires Valid() && p in files
    {
      IdsIn(files[p], names[p])
    }

    /** In the file of every party. */
    ghost predicate Shared(x: Id)
      requires Valid()
    {
      forall p {:trigger Ids(p)} :: p in files ==> x in Ids(p)
    }
  }

  datatype Msg =
    | Ask(from: Party, enc: Blob)                 // own IDs under the own key, for everyone
    | Reply(from: Party, to: Party, enc: Blob)    // the IDs of `to` under both keys

  datatype Net = Net(views: map<Party, View>, sent: set<Msg>)

  datatype Action =
    | Encrypt(p: Party, ids: EncSet)
    | Serve(p: Party, from: Party, ask: Blob, reply: Result<Blob, PsiError>)
    | Accept(p: Party, from: Party, got: Blob)
    | Attempt(p: Party)

  ghost predicate Init(c: Config, s: Net) {
    && s.sent == {} && s.views.Keys == c.files.Keys
    && forall p :: p in s.views ==> s.views[p] == View([], [], map[], map[], None)
  }

  /** The party's view and the messages after the action. */
  ghost predicate Step(c: Config, a: Action, v: View, w: View, sent: set<Msg>, sent': set<Msg>)
    requires c.Valid() && a.p in c.files
  {
    var others := c.Others(a.p);
    match a
    case Encrypt(p, enc) =>
      && Loads(v, w, c.files[p], c.names[p])
      && Encrypts(enc, w.ids, multiset{p})
      && sent' == sent + {Ask(p, Marshalled(enc))}
    case Serve(p, from, ask, reply) =>
      && (from in others ==> Ask(from, ask) in sent)
      && Answers(ask, from in others, p, reply)
      && w == (if reply.Success? then StoreFinal(v, others, from, reply.value) else v)
      && sent' == (if reply.Success? then sent + {Reply(p, from, reply.value)} else sent)
    case Accept(p, from, b) =>
      && (from in others ==> Reply(from, p, b) in sent)
      && (w == StoreReEnc(v, others, from, b) || w == ReplaceReEnc(v, others, from, b))
      && sent' == sent
    case Attempt(p) =>
      && (Lines(v, c.names[p]) && Indexed(v, others) ==> Intersects(v, w, others, c.names[p]))
      && sent' == sent
  }

  ghost predicate Next(c: Config, a: Action, s: Net, t: Net)
    requires c.Valid()
  {
    && a.p in c.files && s.views.Keys == c.files.Keys
    && t.views.Keys == s.views.Keys && (forall p :: p in s.views && p != a.p ==> t.views[p] == s.views[p])
    && Step(c, a, s.views[a.p], t.views[a.p], s.sent, t.sent)
  }

  // ---------------------------------------------------------------- what every step keeps

  ghost predicate HonestMsg(c: Config, views: map<Party, View>, m: Msg)
    requires c.Valid() && views.Keys == c.files.Keys
  {
    match m
    case Ask(p, b) =>
      p in c.files && views[p].rows == c.files[p] && b.Marshalled? && Encrypts(b.ids, c.Ids(p), multiset{p})
    case Reply(p, q, b) =>
      p in c.files && (q in c.Others(p) ==> views[q].rows == c.files[q] && OwnFrom(c, q, p, b))
  }

  /** The IDs of `p`, re-encrypted by `q`. */
  ghost predicate OwnFrom(c: Config, p: Party, q: Party, b: Blob)
    requires c.Valid() && p in c.files
  {
    q in c.Others(p) && b.Marshalled? && Encrypts(b.ids, c.Ids(p), multiset{p, q})
  }

  /** The IDs of `q`, re-encrypted by `p`. */
  ghost predicate FinalOf(c: Config, p: Party, q: Party, b: Blob)
    requires c.Valid() && p in c.files
  {
    q in c.Others(p) && b.Marshalled? && Encrypts(b.ids, c.Ids(q), multiset{p, q})
  }

  ghost predicate HonestSets(c: Config, p: Party, v: View)
    requires c.Valid() && p in c.files
  {
    && (forall q :: q in v.reEnc ==> v.rows != [] && OwnFrom(c, p, q, v.reEnc[q]))
    && (forall q :: q in v.finals ==> FinalOf(c, p, q, v.finals[q]))
  }

  /** The sorted list of the IDs all parties share, and the samples of `p` in that order. */
  ghost predicate Correct(c: Config, p: Party, a: Aligned)
    requires c.Valid() && p in c.files
  {
    && Text.Ascending(a.ids) && (forall x :: x in a.ids <==> c.Shared(x))
    && Arranged(a.rows, c.files[p], c.names[p], a.ids)
  }

  ghost predicate GoodView(c: Config, p: Party, v: View)
    requires c.Valid() && p in c.files
  {
    && (if v.rows == [] then v.ids == [] else v.rows == c.files[p] && v.ids == c.Ids(p))
    && HonestSets(c, p, v)
    && (v.result.Some? ==> Correct(c, p, v.result.value))
  }

  ghost predicate Inv(c: Config, s: Net) {
    && c.Valid() && s.views.Keys == c.files.Keys
    && (forall m :: m in s.sent ==> HonestMsg(c, s.views, m))
    && (forall p :: p in c.files ==> GoodView(c, p, s.views[p]))
  }

  lemma SharedAmongOthers(c: Config, p: Party, x: Id)
    requires c.Valid() && p in c.files
    ensures c.Others(p) != {}
    ensures c.Shared(x) <==> (forall q :: q in c.Others(p) ==> x in c.Ids(p) && x in c.Ids(q))
  {
    Fewer(c.files.Keys, {p} + c.Others(p));
    assert c.Others(p) == {} ==> {p} + c.Others(p) == {p};
    var q :| q in c.Others(p);
    if forall q :: q in c.Others(p) ==> x in c.Ids(p) && x in c.Ids(q) {
      forall r | r in c.files ensures x in c.Ids(r) {
        if r != p { assert r in c.Others(p); } else { assert q in c.Others(p); }
      }
    }
  }

  lemma Fewer<T>(a: set<T>, b: set<T>)
    requires a <= b
    ensures |a| <= |b|
  {
    assert b == a + (b - a);
  }

  /** Between honest parties, what is common to all pairs is what all share. */
  lemma CommonIsShared(c: Config, p: Party, v: View)
    requires c.Valid() && p in c.files && GoodView(c, p, v)
    ensures Lines(v, c.names[p]) && Indexed(v, c.Others(p)) && Unambiguous(v, c.Others(p))
    ensures AllReady(v, c.Others(p)) ==> v.rows != []
    ensures AllReady(v, c.Others(p)) ==> forall x :: InCommon(v, c.Others(p), x) <==> c.Shared(x)
  {
    var others := c.Others(p);
    forall q | q in others && Ready(v, q)
      ensures v.rows != [] && InRange(v.ids, v.reEnc[q].ids, v.finals[q].ids)
      ensures Separates(v.ids, v.reEnc[q].ids, v.finals[q].ids)
      ensures forall x :: ChosenWith(v, q, x) <==> x in c.Ids(p) && x in c.Ids(q)
    {
      HonestChoice(v.ids, c.Ids(q), v.reEnc[q].ids, v.finals[q].ids, multiset{p, q});
    }
    if AllReady(v, others) {
      SharedAmongOthers(c, p, "");
      forall x ensures InCommon(v, others, x) <==> c.Shared(x) {
        SharedAmongOthers(c, p, x);
      }
    }
  }

  /** An attempt ends with the right result exactly when all sets have come and some ID is shared. */
  lemma AttemptDecides(c: Config, p: Party, v: View, w: View)
    requires c.Valid() && p in c.files && GoodView(c, p, v)
    requires Lines(v, c.names[p]) && Indexed(v, c.Others(p)) && Intersects(v, w, c.Others(p), c.names[p])
    ensures GoodView(c, p, w)
    ensures v.result.Some? ==> w == v
    ensures v.result.None? ==> (w.result.Some? <==> AllReady(v, c.Others(p)) && exists x :: c.Shared(x))
  {
    CommonIsShared(c, p, v);
    if AllReady(v, c.Others(p)) {
      assert SomeInCommon(v, c.Others(p)) <==> exists x :: c.Shared(x);
    }
  }

  lemma ServeKeeps(c: Config, p: Party, v: View, from: Party, ask: EncSet, reply: EncSet)
    requires c.Valid() && p in c.files && GoodView(c, p, v) && from in c.Others(p)
    requires Encrypts(ask, c.Ids(from), multiset{from}) && ReEncrypts(reply, ask, p)
    ensures OwnFrom(c, from, p, Marshalled(reply)) && FinalOf(c, p, from, Marshalled(reply))
    ensures GoodView(c, p, StoreFinal(v, c.Others(p), from, Marshalled(reply)))
  {
    ReEncryptsHonestly(reply, ask, p, c.Ids(from), multiset{from});
    assert multiset{from} + multiset{p} == multiset{p, from} == multiset{from, p};
  }

  lemma AcceptKeeps(c: Config, p: Party, v: View, from: Party, b: Blob)
    requires c.Valid() && p in c.files && GoodView(c, p, v)
    requires from in c.Others(p) ==> v.rows != [] && OwnFrom(c, p, from, b)
    ensures GoodView(c, p, StoreReEnc(v, c.Others(p), from, b))
    ensures GoodView(c, p, ReplaceReEnc(v, c.Others(p), from, b))
  {
  }

  ghost predicate Stays(v: View, w: View) {
    && (v.result.Some? ==> w.result == v.result)
    && (v.rows != [] ==> w.rows == v.rows)
  }

  lemma ServeStep(c: Config, s: Net, a: Action, t: Net)
    requires Inv(c, s) && Next(c, a, s, t) && a.Serve?
    ensures GoodView(c, a.p, t.views[a.p]) && Stays(s.views[a.p], t.views[a.p])
    ensures a.reply.Success? && a.from in c.Others(a.p) ==> OwnFrom(c, a.from, a.p, a.reply.value)
  {
    var v := s.views[a.p];
    assert GoodView(c, a.p, v);
    if a.from in c.Others(a.p) {
      assert HonestMsg(c, s.views, Ask(a.from, a.ask));
      ServeKeeps(c, a.p, v, a.from, a.ask.ids, a.reply.value.ids);
    }
  }

  lemma AcceptStep(c: Config, s: Net, a: Action, t: Net)
    requires Inv(c, s) && Next(c, a, s, t) && a.Accept?
    ensures GoodView(c, a.p, t.views[a.p]) && Stays(s.views[a.p], t.views[a.p])
  {
    var v := s.views[a.p];
    assert GoodView(c, a.p, v);
    if a.from in c.Others(a.p) {
      assert HonestMsg(c, s.views, Reply(a.from, a.p, a.got));
    }
    AcceptKeeps(c, a.p, v, a.from, a.got);
  }

  lemma ViewStep(c: Config, s: Net, a: Action, t: Net)
    requires Inv(c, s) && Next(c, a, s, t)
    ensures GoodView(c, a.p, t.views[a.p]) && Stays(s.views[a.p], t.views[a.p])
    ensures a.Serve? && a.reply.Success? && a.from in c.Others(a.p) ==> OwnFrom(c, a.from, a.p, a.reply.value)
  {
    assert GoodView(c, a.p, s.views[a.p]);
    if a.Serve? {
      ServeStep(c, s, a, t);
    } else if a.Accept? {
      AcceptStep(c, s, a, t);
    } else if a.Attempt? {
      CommonIsShared(c, a.p, s.views[a.p]);
      AttemptDecides(c, a.p, s.views[a.p], t.views[a.p]);
    }
  }

  lemma MsgKept(c: Config, views: map<Party, View>, views': map<Party, View>, m: Msg)
    requires c.Valid() && views.Keys == views'.Keys == c.files.Keys && HonestMsg(c, views, m)
    requires forall p :: p in c.files ==> Stays(views[p], views'[p])
    ensures HonestMsg(c, views', m)
  {
  }

  lemma AskSent(c: Config, s: Net, a: Action, t: Net)
    requires c.Valid() && Next(c, a, s, t) && a.Encrypt?
    ensures HonestMsg(c, t.views, Ask(a.p, Marshalled(a.ids)))
  {
  }

  lemma ReplySent(c: Config, s: Net, a: Action, t: Net)
    requires Inv(c, s) && Next(c, a, s, t) && a.Serve? && a.reply.Success?
    requires forall p :: p in c.files ==> Stays(s.views[p], t.views[p])
    requires a.from in c.Others(a.p) ==> OwnFrom(c, a.from, a.p, a.reply.value)
    ensures HonestMsg(c, t.views, Reply(a.p, a.from, a.reply.value))
  {
    if a.from in c.Others(a.p) {
      assert HonestMsg(c, s.views, Ask(a.from, a.ask));
      assert Stays(s.views[a.from], t.views[a.from]);
    }
  }

  lemma StepInv(c: Config, s: Net, a: Action, t: Net)
    requires Inv(c, s) && Next(c, a, s, t)
    ensures Inv(c, t)
    ensures forall p :: p in c.files ==> Stays(s.views[p], t.views[p])
  {
    ViewStep(c, s, a, t);
    forall p | p in c.files ensures GoodView(c, p, t.views[p]) && Stays(s.views[p], t.views[p]) {
      if p != a.p { assert t.views[p] == s.views[p] && GoodView(c, p, s.views[p]); }
    }
    forall m | m in t.sent ensures HonestMsg(c, t.views, m) {
      if m in s.sent { MsgKept(c, s.views, t.views, m); }
      else if a.Encrypt? { AskSent(c, s, a, t); }
      else { ReplySent(c, s, a, t); }
    }
  }

  // ---------------------------------------------------------------- whole runs

  ghost predicate Run(c: Config, states: seq<Net>, actions: seq<Action>)
    requires c.Valid()
  {
    && |states| == |actions| + 1
    && Init(c, states[0])
    && forall i :: 0 <= i < |actions| ==> Next(c, actions[i], states[i], states[i + 1])
  }

  lemma {:induction false} RunInv(c: Config, states: seq<Net>, actions: seq<Action>, n: nat)
    requires c.Valid() && Run(c, states, actions) && n < |states|
    ensures Inv(c, states[n])
  {
    if n > 0 {
      RunInv(c, states, actions, n - 1);
      StepInv(c, states[n - 1], actions[n - 1], states[n]);
    }
  }

  ghost predicate Has(s: Net, p: Party, r: Aligned) {
    p in s.views && s.views[p].result == Some(r)
  }

  ghost predicate Keeps(s: Net, t: Net) { forall p, r :: Has(s, p, r) ==> Has(t, p, r) }

  lemma StepKeepsResults(c: Config, s: Net, a: Action, t: Net)
    requires Inv(c, s) && Next(c, a, s, t)
    ensures Keeps(s, t)
  {
    StepInv(c, s, a, t);
    forall p, r | Has(s, p, r) ensures Has(t, p, r) {
      assert Stays(s.views[p], t.views[p]);
    }
  }

  lemma RunKeepsResults(c: Config, states: seq<Net>, actions: seq<Action>)
    requires c.Valid() && Run(c, states, actions)
    ensures forall i :: 0 <= i < |actions| ==> Keeps(states[i], states[i + 1])
  {
    forall i | 0 <= i < |actions| ensures Keeps(states[i], states[i + 1]) {
      RunInv(c, states, actions, i);
      StepKeepsResults(c, states[i], actions[i], states[i + 1]);
    }
  }

  lemma {:induction false} ResultStays(states: seq<Net>, m: nat, n: nat, p: Party, r: Aligned)
    requires forall i :: 0 <= i < |states| - 1 ==> Keeps(states[i], states[i + 1])
    requires m <= n < |states| && Has(states[m], p, r)
    ensures Has(states[n], p, r)
  {
    if m < n {
      ResultStays(states, m, n - 1, p, r);
      assert Keeps(states[n - 1], states[n - 1 + 1]);
    }
  }

  /** Whatever arrives in whatever order: a result is the sorted list of the IDs all parties share,
      with the party's own samples in that order, and it never changes again. */
  lemma ResultIsIntersection(c: Config, states: seq<Net>, actions: seq<Action>, m: nat, n: nat, p: Party, r: Aligned)
    requires c.Valid() && Run(c, states, actions) && m <= n < |states|
    requires Has(states[m], p, r)
    ensures p in c.files && Correct(c, p, r)
    ensures Has(states[n], p, r)
  {
    RunInv(c, states, actions, m);
    assert GoodView(c, p, states[m].views[p]);
    RunKeepsResults(c, states, actions);
    ResultStays(states, m, n, p, r);
  }

  /** Without an ID that all share nobody ever gets a result; with one, a party gets it at its next
      attempt after all sets have reached it. */
  lemma AttemptFinishes(c: Config, states: seq<Net>, actions: seq<Action>, n: nat)
    requires c.Valid() && Run(c, states, actions) && n < |actions| && actions[n].Attempt?
    requires actions[n].p in states[n].views && states[n].views[actions[n].p].result.None?
    ensures actions[n].p in states[n + 1].views
    ensures states[n + 1].views[actions[n].p].result.Some?
            <==> AllReady(states[n].views[actions[n].p], c.Others(actions[n].p)) && exists x :: c.Shared(x)
  {
    RunInv(c, states, actions, n);
    var p := actions[n].p;
    assert GoodView(c, p, states[n].views[p]);
    CommonIsShared(c, p, states[n].views[p]);
    AttemptDecides(c, p, states[n].views[p], states[n + 1].views[p]);
  }

  /** All parties end up with the same list, and row `k + 1` of every party belongs to its `k`-th ID. */
  lemma PartiesAgree(c: Config, p: Party, q: Party, a: Aligned, b: Aligned)
    requires c.Valid() && p in c.files && q in c.files
    requires Correct(c, p, a) && Correct(c, q, b)
    ensures a.ids == b.ids && |a.rows| == |b.rows|
    ensures forall k :: 0 <= k < |a.ids| ==> HasSample(c, p, a, k) && HasSample(c, q, b, k)
  {
    var s := set x | x in a.ids;
    Text.SortsUnique(a.ids, b.ids, s);
    forall k | 0 <= k < |a.ids| ensures HasSample(c, p, a, k) && HasSample(c, q, b, k) {
      SampleAt(c, p, a, k);
      SampleAt(c, q, b, k);
    }
  }

  ghost predicate HasSample(c: Config, p: Party, a: Aligned, k: nat)
    requires c.Valid() && p in c.files
  {
    assert Readable(c.files[p], c.names[p]);
    var col := Column(c.files[p][0], c.names[p]).value;
    && k < |a.ids| && k + 1 < |a.rows|
    && exists i: nat :: LastSample(c.files[p], c.names[p], a.ids[k], i) && Drops(a.rows[k + 1], c.files[p][i], col)
  }

  lemma SampleAt(c: Config, p: Party, a: Aligned, k: nat)
    requires c.Valid() && p in c.files && Correct(c, p, a) && k < |a.ids|
    ensures HasSample(c, p, a, k)
  {
    assert a.ids[k] in a.ids && c.Shared(a.ids[k]) && a.ids[k] in c.Ids(p);
    SampleExists(c.files[p], c.names[p], a.ids[k]);
    var i: nat :| LastSample(c.files[p], c.names[p], a.ids[k], i);
    forall j | k < j < |a.ids| ensures a.ids[j] != a.ids[k] {
      Text.LessTotal(a.ids[k], a.ids[k]);
    }
    assert a.ids[k] !in a.ids[k + 1..];
  }

  // ---------------------------------------------------------------- the order of the result

  /** The shared IDs in the order of a party's own list. */
  ghost function InOwnOrder(c: Config, ids: seq<Id>): (r: seq<Id>)
    requires c.Valid()
    ensures forall x :: x in r <==> x in ids && c.Shared(x)
  {
    if ids == [] then []
    else
      assert forall x :: x in ids <==> x == ids[0] || x in ids[1..];
      if c.Shared(ids[0]) then [ids[0]] + InOwnOrder(c, ids[1..]) else InOwnOrder(c, ids[1..])
  }

  /** The result is in the party's own order only if that order is ascending without repetition. */
  lemma {:induction false} OwnOrder(c: Config, p: Party, r: Aligned)
    requires c.Valid() && p in c.files && Correct(c, p, r)
    ensures r.ids == InOwnOrder(c, c.Ids(p)) <==> Text.Ascending(InOwnOrder(c, c.Ids(p)))
  {
    var own := InOwnOrder(c, c.Ids(p));
    if Text.Ascending(own) {
      Text.SortsUnique(r.ids, own, set x | x in r.ids);
    }
  }

  /** Two parties with the samples "b" and "a", in that order. */
  lemma {:induction false} OwnOrderLost(c: Config, f: seq<Row>)
    requires f == [["id"], ["b"], ["a"]]
    requires c == Config(map["P" := f, "Q" := f], map["P" := "id", "Q" := "id"])
    ensures c.Valid() && InOwnOrder(c, c.Ids("P")) == ["b", "a"]
    ensures !Text.Ascending(InOwnOrder(c, c.Ids("P")))
  {
    TwoSamples(f);
    TwoParties(c, f);
    AllShared(c, c.Ids("P"));
    assert !Text.Less("b", "a");
  }

  lemma {:induction false} TwoParties(c: Config, f: seq<Row>)
    requires Readable(f, "id")
    requires c == Config(map["P" := f, "Q" := f], map["P" := "id", "Q" := "id"])
    ensures c.Valid() && c.Ids("P") == IdsIn(f, "id")
    ensures forall x :: x in c.Ids("P") ==> c.Shared(x)
  {
    assert c.files.Keys == {"P", "Q"} == c.names.Keys;
    assert forall p :: p in c.files ==> c.files[p] == f && c.names[p] == "id";
  }

  lemma {:induction false} TwoSamples(f: seq<Row>)
    requires f == [["id"], ["b"], ["a"]]
    ensures Readable(f, "id") && IdsIn(f, "id") == ["b", "a"]
  {
    assert Column(["id"], "id") == Some(0);
  }

  lemma {:induction false} AllShared(c: Config, ids: seq<Id>)
    requires c.Valid() && forall x :: x in ids ==> c.Shared(x)
    ensures InOwnOrder(c, ids) == ids
  {
    if ids != [] {
      AllShared(c, ids[1..]);
    }
  }
}
