/** Health of slices, files, namespaces and the whole system, from the health of the nodes. */
module FileHealth {
  import opened Wrappers
  import opened Copies
  import opened Sequences
  import opened Placement

  datatype HealthError = NoSlices | UnknownNode

  type NodeHealths = map<NodeId, Health>

  /** A file lists a copy for every slice and node that holds it. */
  type File = seq<Copy>

  // ---------------------------------------------------------------- what the grades mean

  ghost predicate Known(nodes: seq<NodeId>, hs: NodeHealths) { forall n :: n in nodes ==> n in hs }

  ghost predicate KnownFile(f: File, hs: NodeHealths) { forall c :: c in f ==> c.node in hs }

  ghost predicate AllAre(nodes: seq<NodeId>, hs: NodeHealths, h: Health)
    requires Known(nodes, hs)
  {
    forall n :: n in nodes ==> hs[n] == h
  }

  ghost function SliceGrade(nodes: seq<NodeId>, hs: NodeHealths): Health
    requires Known(nodes, hs)
  {
    if AllAre(nodes, hs, Red) then Red
    else if |nodes| > 1 && AllAre(nodes, hs, Green) then Green
    else Yellow
  }

  function SliceIds(f: File): set<SliceId> { set c | c in f :: c.slice }

  ghost function GradeOf(f: File, hs: NodeHealths, x: SliceId): Health
    requires KnownFile(f, hs)
  {
    KnownNodes(f, hs, x);
    SliceGrade(NodesOf(f, x), hs)
  }

  /** Red if some slice has all its copies on red nodes; green if the namespace wants several
      copies, there are as many, and all slices are green. */
  ghost function FileGrade(f: File, replica: int, hs: NodeHealths): Health
    requires KnownFile(f, hs)
  {
    if exists x :: x in SliceIds(f) && GradeOf(f, hs, x) == Red then Red
    else if replica > 1 && |f| == |SliceIds(f)| * replica && forall x :: x in SliceIds(f) ==> GradeOf(f, hs, x) == Green
    then Green
    else Yellow
  }

  lemma {:induction false} NodesOfMembers(f: File, x: SliceId, n: NodeId)
    ensures n in NodesOf(f, x) <==> Copy(x, n) in f
    ensures n in NodesOf(f, x) ==> x in SliceIds(f)
  {
    if f != [] {
      assert f == [f[0]] + f[1..];
      NodesOfMembers(f[1..], x, n);
    }
    if Copy(x, n) in f { assert Copy(x, n).slice in SliceIds(f); }
  }

  lemma {:induction false} KnownNodes(f: File, hs: NodeHealths, x: SliceId)
    requires KnownFile(f, hs)
    ensures Known(NodesOf(f, x), hs)
  {
    forall n | n in NodesOf(f, x) ensures n in hs {
      NodesOfMembers(f, x, n);
      assert Copy(x, n).node in hs;
    }
  }

  // ---------------------------------------------------------------- slices and files

  method GetSliceAvgHealth(nodes: seq<NodeId>, hs: NodeHealths) returns (r: Result<Health, HealthError>)
    ensures r.Success? <==> Known(nodes, hs)
    ensures r.Success? ==> r.value == SliceGrade(nodes, hs)
  {
    var nhlist: seq<Health> := [];
    for i := 0 to |nodes|
      invariant |nhlist| == i && forall k :: 0 <= k < i ==> nodes[k] in hs && nhlist[k] == hs[nodes[k]]
    {
      if nodes[i] !in hs { return Failure(UnknownNode); }
      nhlist := nhlist + [hs[nodes[i]]];
    }
    var greenNl, redNl := 0, 0;
    for i := 0 to |nhlist|
      invariant greenNl <= i && (greenNl == i <==> forall k :: 0 <= k < i ==> nhlist[k].Green?)
      invariant redNl <= i && (redNl == i <==> forall k :: 0 <= k < i ==> nhlist[k].Red?)
    {
      if nhlist[i].Green? { greenNl := greenNl + 1; }
      if nhlist[i].Red? { redNl := redNl + 1; }
    }
    assert redNl == |nhlist| <==> AllAre(nodes, hs, Red);
    assert greenNl == |nhlist| <==> AllAre(nodes, hs, Green);
    if redNl == |nhlist| { return Success(Red); }
    if greenNl > 1 && greenNl == |nhlist| { return Success(Green); }
    return Success(Yellow);
  }

  /** Asks the chain for the health of each node, in any order. */
  method GetFileNodesHealth(nodes: set<NodeId>, chain: NodeHealths) returns (r: Result<NodeHealths, HealthError>)
    ensures r.Success? <==> nodes <= chain.Keys
    ensures r.Success? ==> r.value.Keys == nodes && forall n :: n in nodes ==> r.value[n] == chain[n]
  {
    var hs: NodeHealths := map[];
    var todo := nodes;
    while todo != {}
      invariant todo <= nodes && hs.Keys == nodes - todo && nodes - todo <= chain.Keys
      invariant forall n :: n in hs ==> hs[n] == chain[n]
      decreases todo
    {
      var n :| n in todo;
      if n !in chain { return Failure(UnknownNode); }
      hs := hs[n := chain[n]];
      todo := todo - {n};
    }
    return Success(hs);
  }

  /** `m` holds the nodes of each slice, in recorded order. */
  ghost predicate Grouped(m: map<SliceId, seq<NodeId>>, f: File) {
    m.Keys == SliceIds(f) && forall x :: x in m ==> m[x] == NodesOf(f, x)
  }

  lemma {:induction false} NodesOfMore(f: File, c: Copy, x: SliceId)
    ensures NodesOf(f + [c], x) == NodesOf(f, x) + if x == c.slice then [c.node] else []
    ensures x !in SliceIds(f) ==> NodesOf(f, x) == []
  {
    NodesOfConcat(f, [c], x);
    assert [c][1..] == [];
    if x !in SliceIds(f) { NoNodes(f, x); }
  }

  lemma SliceIdsMore(f: File, c: Copy)
    ensures SliceIds(f + [c]) == SliceIds(f) + {c.slice}
  {
    assert forall d :: d in f + [c] <==> d in f || d == c;
    assert c in f + [c];
  }

  lemma GroupedMore(m: map<SliceId, seq<NodeId>>, f: File, c: Copy)
    requires Grouped(m, f)
    ensures Grouped(m[c.slice := (if c.slice in m then m[c.slice] else []) + [c.node]], f + [c])
  {
    SliceIdsMore(f, c);
    NodesOfMore(f, c, c.slice);
    forall x | x in m && x != c.slice ensures m[x] == NodesOf(f + [c], x) {
      NodesOfMore(f, c, x);
    }
  }

  /** The nodes of each slice, and all nodes. */
  method GroupSlices(f: File) returns (sliceList: map<SliceId, seq<NodeId>>, fileNodes: set<NodeId>)
    ensures sliceList.Keys == SliceIds(f) && forall x :: x in sliceList ==> sliceList[x] == NodesOf(f, x)
    ensures fileNodes == set c | c in f :: c.node
  {
    sliceList, fileNodes := map[], {};
    for i := 0 to |f|
      invariant Grouped(sliceList, f[..i])
      invariant fileNodes == set c | c in f[..i] :: c.node
    {
      var c := f[i];
      GroupedMore(sliceList, f[..i], c);
      assert f[..i + 1] == f[..i] + [c];
      sliceList := sliceList[c.slice := (if c.slice in sliceList then sliceList[c.slice] else []) + [c.node]];
      fileNodes := fileNodes + {c.node};
    }
    assert f[..|f|] == f;
  }

  lemma {:induction false} NoNodes(f: File, x: SliceId)
    requires x !in SliceIds(f)
    ensures NodesOf(f, x) == []
  {
    if NodesOf(f, x) != [] { NodesOfMembers(f, x, NodesOf(f, x)[0]); }
  }

  /** The slices are graded concurrently, so their grades come in any order. */
  method GradeSlices(sliceList: map<SliceId, seq<NodeId>>, hs: NodeHealths) returns (sliceH: seq<Health>)
    requires forall x :: x in sliceList ==> Known(sliceList[x], hs)
    ensures |sliceH| == |sliceList|
    ensures forall h :: h in sliceH <==> exists x :: x in sliceList && SliceGrade(sliceList[x], hs) == h
  {
    sliceH := [];
    var todo := sliceList.Keys;
    while todo != {}
      invariant todo <= sliceList.Keys && |sliceH| + |todo| == |sliceList|
      invariant forall h :: h in sliceH <==>
        exists x :: x in sliceList && x !in todo && SliceGrade(sliceList[x], hs) == h
      decreases todo
    {
      var x :| x in todo;
      var h := GetSliceAvgHealth(sliceList[x], hs);
      sliceH := sliceH + [h.value];
      todo := todo - {x};
    }
  }

  method GetFileHealth(f: File, replica: int, chain: NodeHealths) returns (r: Result<Health, HealthError>)
    ensures r.Success? <==> f != [] && KnownFile(f, chain)
    ensures r.Success? ==> r.value == FileGrade(f, replica, chain)
  {
    if f == [] { return Failure(NoSlices); }
    var sliceList, fileNodes := GroupSlices(f);
    var got := GetFileNodesHealth(fileNodes, chain);
    assert fileNodes <= chain.Keys <==> KnownFile(f, chain);
    if got.Failure? { return Failure(got.error); }
    forall x | x in sliceList ensures Known(sliceList[x], got.value) { KnownNodes(f, got.value, x); }
    var sliceH := GradeSlices(sliceList, got.value);
    SameGrades(f, got.value, chain);
    SummaryIsGrade(f, replica, chain, sliceH);
    var h := Summarise(sliceH, replica > 1 && |f| == |sliceList| * replica);
    return Success(h);
  }

  ghost function Summary(sliceH: seq<Health>, enough: bool): Health {
    if Red in sliceH then Red
    else if enough && forall k :: 0 <= k < |sliceH| ==> sliceH[k].Green? then Green
    else Yellow
  }

  method Summarise(sliceH: seq<Health>, enough: bool) returns (r: Health)
    ensures r == Summary(sliceH, enough)
  {
    var greenSln := 0;
    for i := 0 to |sliceH|
      invariant greenSln <= i && (greenSln == i <==> forall k :: 0 <= k < i ==> sliceH[k].Green?)
      invariant forall k :: 0 <= k < i ==> !sliceH[k].Red?
    {
      if sliceH[i].Red? { return Red; }
      if sliceH[i].Green? { greenSln := greenSln + 1; }
    }
    return if enough && greenSln == |sliceH| then Green else Yellow;
  }

  lemma SummaryIsGrade(f: File, replica: int, hs: NodeHealths, sliceH: seq<Health>)
    requires KnownFile(f, hs)
    requires forall h :: h in sliceH <==> exists x :: x in SliceIds(f) && GradeOf(f, hs, x) == h
    ensures Summary(sliceH, replica > 1 && |f| == |SliceIds(f)| * replica) == FileGrade(f, replica, hs)
  {
    assert forall k :: 0 <= k < |sliceH| ==> sliceH[k] in sliceH;
    if forall k :: 0 <= k < |sliceH| ==> sliceH[k].Green? {
      forall x | x in SliceIds(f) ensures GradeOf(f, hs, x) == Green {
        assert GradeOf(f, hs, x) in sliceH;
      }
    }
  }

  /** Only the health of the file's own nodes matters. */
  lemma SameGrades(f: File, a: NodeHealths, b: NodeHealths)
    requires KnownFile(f, a) && KnownFile(f, b) && forall c :: c in f ==> a[c.node] == b[c.node]
    ensures forall x :: GradeOf(f, a, x) == GradeOf(f, b, x)
  {
    forall x ensures GradeOf(f, a, x) == GradeOf(f, b, x) {
      KnownNodes(f, a, x);
      KnownNodes(f, b, x);
      forall n | n in NodesOf(f, x) ensures a[n] == b[n] {
        NodesOfMembers(f, x, n);
        assert a[Copy(x, n).node] == b[Copy(x, n).node];
      }
    }
  }

  // ---------------------------------------------------------------- namespaces and the system

  datatype Namespace = Namespace(files: seq<File>, replica: int, total: int)

  datatype Counts = Counts(normal: int, expired: int, green: int, yellow: int, red: int) {
    function Plus(c: Counts): Counts {
      Counts(normal + c.normal, expired + c.expired, green + c.green, yellow + c.yellow, red + c.red)
    }
  }

  const ZERO := Counts(0, 0, 0, 0, 0)

  ghost predicate Gradable(ns: Namespace, hs: NodeHealths) {
    forall i :: 0 <= i < |ns.files| ==> ns.files[i] != [] && KnownFile(ns.files[i], hs)
  }

  datatype Graded = Graded(green: nat, yellow: nat, red: nat) {
    function Total(): nat { green + yellow + red }
  }

  /** How many are of which grade. */
  function Tally(grades: multiset<Health>): Graded {
    Graded(grades[Green], grades[Yellow], grades[Red])
  }

  lemma {:induction false} TallyAddsUp(grades: seq<Health>)
    ensures Tally(multiset(grades)).Total() == |grades|
  {
    if grades == [] {
      assert multiset(grades) == multiset{};
    } else {
      var n := |grades| - 1;
      TallyAddsUp(grades[..n]);
      assert multiset(grades) == multiset(grades[..n]) + multiset{grades[n]} by {
        assert grades == grades[..n] + [grades[n]];
      }
      match grades[n] case Green => case Yellow => case Red =>
    }
  }

  ghost function Grades(ns: Namespace, hs: NodeHealths): seq<Health>
    requires Gradable(ns, hs)
  {
    seq(|ns.files|, i requires 0 <= i < |ns.files| => FileGrade(ns.files[i], ns.replica, hs))
  }

  ghost function CountsOf(ns: Namespace, hs: NodeHealths): Counts
    requires Gradable(ns, hs)
  {
    var t := Tally(multiset(Grades(ns, hs)));
    Counts(|ns.files|, ns.total - |ns.files|, t.green, t.yellow, t.red)
  }

  lemma NextGrade(ns: Namespace, hs: NodeHealths, i: nat)
    requires Gradable(ns, hs) && i < |ns.files|
    ensures Grades(ns, hs)[..i + 1] == Grades(ns, hs)[..i] + [FileGrade(ns.files[i], ns.replica, hs)]
  {
  }

  /** Red files are what is left. */
  method GetNsFilesHealth(ns: Namespace, chain: NodeHealths) returns (r: Result<Counts, HealthError>)
    ensures r.Success? <==> Gradable(ns, chain)
    ensures r.Success? ==> r.value == CountsOf(ns, chain)
    ensures r.Success? ==> r.value.green + r.value.yellow + r.value.red == r.value.normal == |ns.files|
  {
    var fGreenN, fYellowN := 0, 0;
    var n := |ns.files|;
    ghost var grades: seq<Health> := [];
    for i := 0 to n
      invariant forall k :: 0 <= k < i ==> ns.files[k] != [] && KnownFile(ns.files[k], chain)
      invariant Gradable(ns, chain) ==> grades == Grades(ns, chain)[..i]
      invariant fGreenN == multiset(grades)[Green] && fYellowN == multiset(grades)[Yellow]
    {
      var h := GetFileHealth(ns.files[i], ns.replica, chain);
      if h.Failure? { return Failure(h.error); }
      if Gradable(ns, chain) { NextGrade(ns, chain, i); }
      grades := grades + [h.value];
      match h.value
      case Green => fGreenN := fGreenN + 1;
      case Yellow => fYellowN := fYellowN + 1;
      case Red =>
    }
    assert grades == Grades(ns, chain);
    TallyAddsUp(grades);
    return Success(Counts(n, ns.total - n, fGreenN, fYellowN, n - fYellowN - fGreenN));
  }

  function Sum(cs: seq<Counts>): Counts {
    if cs == [] then ZERO else Sum(cs[1..]).Plus(cs[0])
  }

  lemma {:induction false} SumWithout(cs: seq<Counts>, i: nat)
    requires i < |cs|
    ensures Sum(cs) == Sum(cs[..i] + cs[i + 1..]).Plus(cs[i])
  {
    if i == 0 {
      assert cs[..0] + cs[1..] == cs[1..];
    } else {
      SumWithout(cs[1..], i - 1);
      assert (cs[..i] + cs[i + 1..])[1..] == cs[1..][..i - 1] + cs[1..][i..];
    }
  }

  /** A sum does not depend on the order of arrival. */
  lemma {:induction false} SumPermutes(a: seq<Counts>, b: seq<Counts>)
    requires multiset(a) == multiset(b)
    ensures Sum(a) == Sum(b)
  {
    if a == [] {
      assert |b| == |multiset(b)|;
    } else {
      assert a[0] in multiset(b);
      var i :| 0 <= i < |b| && b[i] == a[0];
      FirstOut(a);
      OneOut(b, i);
      assert multiset(a[1..]) == multiset(a) - multiset{a[0]};
      SumPermutes(a[1..], b[..i] + b[i + 1..]);
      SumWithout(b, i);
    }
  }

  ghost predicate GradableAll(nss: seq<Namespace>, hs: NodeHealths) {
    forall i :: 0 <= i < |nss| ==> Gradable(nss[i], hs)
  }

  /** The totals of the first `n` namespaces. */
  ghost function Totals(nss: seq<Namespace>, hs: NodeHealths, n: nat): Counts
    requires GradableAll(nss, hs) && n <= |nss|
  {
    if n == 0 then ZERO else Totals(nss, hs, n - 1).Plus(CountsOf(nss[n - 1], hs))
  }

  lemma {:induction false} SumSnoc(cs: seq<Counts>, c: Counts)
    ensures Sum(cs + [c]) == Sum(cs).Plus(c)
  {
    SumWithout(cs + [c], |cs|);
    assert (cs + [c])[..|cs|] + (cs + [c])[|cs| + 1..] == cs;
  }

  lemma {:induction false} TotalsAddUp(nss: seq<Namespace>, hs: NodeHealths, n: nat)
    requires GradableAll(nss, hs) && n <= |nss|
    ensures var t := Totals(nss, hs, n); t.green + t.yellow + t.red == t.normal
    ensures var t := Totals(nss, hs, n); t.green >= 0 && t.yellow >= 0 && t.red >= 0
  {
    if n > 0 {
      TotalsAddUp(nss, hs, n - 1);
      TallyAddsUp(Grades(nss[n - 1], hs));
    }
  }

  function SystemGrade(t: Counts): Health {
    if t.normal == t.green then Green else if t.red >= 1 then Red else Yellow
  }

  function Reports(nodes: seq<NodeId>, chain: NodeHealths): seq<Health>
    requires forall n :: n in nodes ==> n in chain
  {
    seq(|nodes|, i requires 0 <= i < |nodes| => chain[nodes[i]])
  }

  /** The nodes are asked concurrently, so their reports arrive in any order. */
  method CountNodes(nodes: seq<NodeId>, chain: NodeHealths) returns (r: Result<Graded, HealthError>)
    ensures r.Success? <==> Known(nodes, chain)
    ensures r.Success? ==> r.value == Tally(multiset(Reports(nodes, chain))) && r.value.Total() == |nodes|
  {
    var reports: seq<Health> := [];
    for i := 0 to |nodes|
      invariant |reports| == i && forall k :: 0 <= k < i ==> nodes[k] in chain && reports[k] == chain[nodes[k]]
    {
      if nodes[i] !in chain {
        assert nodes[i] in nodes;
        return Failure(UnknownNode);
      }
      reports := reports + [chain[nodes[i]]];
    }
    assert reports == Reports(nodes, chain);
    var arrived: seq<Health> :| multiset(arrived) == multiset(reports);
    var green, yellow, red := 0, 0, 0;
    for i := 0 to |arrived|
      invariant Graded(green, yellow, red) == Tally(multiset(arrived[..i]))
    {
      assert arrived[..i + 1] == arrived[..i] + [arrived[i]];
      match arrived[i]
      case Green => green := green + 1;
      case Yellow => yellow := yellow + 1;
      case Red => red := red + 1;
    }
    assert arrived[..|arrived|] == arrived;
    TallyAddsUp(reports);
    return Success(Graded(green, yellow, red));
  }

  datatype System = System(files: Counts, nodes: Graded, health: Health)

  /** The namespaces are asked concurrently, so their counts arrive in any order. */
  method CountFiles(nss: seq<Namespace>, chain: NodeHealths) returns (r: Result<Counts, HealthError>)
    ensures r.Success? <==> GradableAll(nss, chain)
    ensures r.Success? ==> r.value == Totals(nss, chain, |nss|)
  {
    var results: seq<Counts> := [];
    for i := 0 to |nss|
      invariant forall k :: 0 <= k < i ==> Gradable(nss[k], chain)
      invariant GradableAll(nss, chain) ==> Sum(results) == Totals(nss, chain, i)
    {
      var nsh := GetNsFilesHealth(nss[i], chain);
      if nsh.Failure? { return Failure(nsh.error); }
      SumSnoc(results, nsh.value);
      results := results + [nsh.value];
    }
    var fh := SumInAnyOrder(results);
    return Success(fh);
  }

  method SumInAnyOrder(results: seq<Counts>) returns (fh: Counts)
    ensures fh == Sum(results)
  {
    var arrived: seq<Counts> :| multiset(arrived) == multiset(results);
    fh := ZERO;
    for i := 0 to |arrived|
      invariant fh == Sum(arrived[..i])
    {
      assert arrived[..i + 1] == arrived[..i] + [arrived[i]];
      SumSnoc(arrived[..i], arrived[i]);
      fh := fh.Plus(arrived[i]);
    }
    assert arrived[..|arrived|] == arrived;
    SumPermutes(arrived, results);
  }

  method GetFileSysHealth(nss: seq<Namespace>, nodes: seq<NodeId>, chain: NodeHealths)
    returns (r: Result<System, HealthError>)
    ensures r.Success? <==> GradableAll(nss, chain) && Known(nodes, chain)
    ensures r.Success? ==>
              var files := Totals(nss, chain, |nss|);
              r.value == System(files, Tally(multiset(Reports(nodes, chain))), SystemGrade(files))
    ensures r.Success? ==> r.value.files.green + r.value.files.yellow + r.value.files.red == r.value.files.normal
    ensures r.Success? ==> r.value.nodes.Total() == |nodes|
  {
    var files := CountFiles(nss, chain);
    var counted := CountNodes(nodes, chain);
    if files.Failure? { return Failure(files.error); }
    if counted.Failure? { return Failure(counted.error); }
    TotalsAddUp(nss, chain, |nss|);
    return Success(System(files.value, counted.value, SystemGrade(files.value)));
  }

  // ---------------------------------------------------------------- monotonicity

  /** `a` is no better than `b`. */
  predicate NoBetter(a: Health, b: Health) { a.Red? || b.Green? || a == b }

  /** Some nodes got worse, none better. */
  ghost predicate Worse(worse: NodeHealths, hs: NodeHealths) {
    worse.Keys == hs.Keys && forall n :: n in hs ==> NoBetter(worse[n], hs[n])
  }

  lemma SliceMonotone(nodes: seq<NodeId>, worse: NodeHealths, hs: NodeHealths)
    requires Worse(worse, hs) && Known(nodes, hs)
    ensures Known(nodes, worse) && NoBetter(SliceGrade(nodes, worse), SliceGrade(nodes, hs))
  {
  }

  lemma FileMonotone(f: File, replica: int, worse: NodeHealths, hs: NodeHealths)
    requires Worse(worse, hs) && KnownFile(f, hs)
    ensures KnownFile(f, worse) && NoBetter(FileGrade(f, replica, worse), FileGrade(f, replica, hs))
  {
    forall x ensures NoBetter(GradeOf(f, worse, x), GradeOf(f, hs, x)) {
      KnownNodes(f, hs, x);
      SliceMonotone(NodesOf(f, x), worse, hs);
    }
    if x :| x in SliceIds(f) && GradeOf(f, hs, x) == Red {
      assert GradeOf(f, worse, x) == Red;
    }
    if FileGrade(f, replica, worse) == Green {
      forall x | x in SliceIds(f) ensures GradeOf(f, hs, x) == Green {
        assert NoBetter(GradeOf(f, worse, x), GradeOf(f, hs, x));
      }
    }
  }

  /** A file is green exactly if its namespace wants several copies, there are as many for its slices, and
      every slice has several copies, all on green nodes. */
  lemma {:induction false} GreenFile(f: File, replica: int, hs: NodeHealths)
    requires KnownFile(f, hs)
    ensures FileGrade(f, replica, hs) == Green <==>
            && replica > 1 && |f| == |SliceIds(f)| * replica
            && forall x :: x in SliceIds(f) ==>
                 |NodesOf(f, x)| > 1 && forall n :: Copy(x, n) in f ==> n in hs && hs[n] == Green
  {
    forall x | x in SliceIds(f)
      ensures GradeOf(f, hs, x) == Green <==>
              |NodesOf(f, x)| > 1 && forall n :: Copy(x, n) in f ==> n in hs && hs[n] == Green
    {
      KnownNodes(f, hs, x);
      forall n ensures n in NodesOf(f, x) <==> Copy(x, n) in f { NodesOfMembers(f, x, n); }
      if |NodesOf(f, x)| > 1 { assert NodesOf(f, x)[0] in NodesOf(f, x); }
    }
  }

  /** A file is red exactly if some slice has all its copies on red nodes. */
  lemma RedFile(f: File, replica: int, hs: NodeHealths)
    requires KnownFile(f, hs)
    ensures FileGrade(f, replica, hs) == Red <==>
            exists x :: x in SliceIds(f) && forall n :: Copy(x, n) in f ==> n in hs && hs[n] == Red
  {
    forall x ensures GradeOf(f, hs, x) == Red <==> forall n :: Copy(x, n) in f ==> n in hs && hs[n] == Red {
      KnownNodes(f, hs, x);
      forall n ensures n in NodesOf(f, x) <==> Copy(x, n) in f { NodesOfMembers(f, x, n); }
    }
  }

  lemma {:induction false} TallyMonotone(worse: seq<Health>, grades: seq<Health>)
    requires |worse| == |grades| && forall i :: 0 <= i < |grades| ==> NoBetter(worse[i], grades[i])
    ensures multiset(worse)[Green] <= multiset(grades)[Green]
    ensures multiset(worse)[Red] >= multiset(grades)[Red]
  {
    if grades != [] {
      var n := |grades| - 1;
      TallyMonotone(worse[..n], grades[..n]);
      assert worse == worse[..n] + [worse[n]] && grades == grades[..n] + [grades[n]];
    }
  }

  lemma StillGradable(nss: seq<Namespace>, worse: NodeHealths, hs: NodeHealths)
    requires Worse(worse, hs) && GradableAll(nss, hs)
    ensures GradableAll(nss, worse)
  {
    forall i | 0 <= i < |nss| ensures Gradable(nss[i], worse) {
      forall k | 0 <= k < |nss[i].files| ensures KnownFile(nss[i].files[k], worse) {
        assert KnownFile(nss[i].files[k], hs);
      }
    }
  }

  ghost predicate NoBetterCounts(w: Counts, t: Counts) {
    w.normal == t.normal && w.green <= t.green && w.red >= t.red
  }

  lemma NamespaceMonotone(ns: Namespace, worse: NodeHealths, hs: NodeHealths)
    requires Worse(worse, hs) && Gradable(ns, hs) && Gradable(ns, worse)
    ensures NoBetterCounts(CountsOf(ns, worse), CountsOf(ns, hs))
  {
    forall i | 0 <= i < |ns.files| ensures NoBetter(Grades(ns, worse)[i], Grades(ns, hs)[i]) {
      FileMonotone(ns.files[i], ns.replica, worse, hs);
    }
    TallyMonotone(Grades(ns, worse), Grades(ns, hs));
  }

  lemma SumsNoBetter(a: Counts, b: Counts, c: Counts, d: Counts)
    requires NoBetterCounts(a, c) && NoBetterCounts(b, d)
    ensures NoBetterCounts(a.Plus(b), c.Plus(d))
  {
  }

  lemma {:induction false} TotalsMonotone(nss: seq<Namespace>, worse: NodeHealths, hs: NodeHealths, n: nat)
    requires Worse(worse, hs) && GradableAll(nss, hs) && GradableAll(nss, worse) && n <= |nss|
    ensures NoBetterCounts(Totals(nss, worse, n), Totals(nss, hs, n))
    decreases n
  {
    if n > 0 {
      assert Gradable(nss[n - 1], hs) && Gradable(nss[n - 1], worse);
      TotalsMonotone(nss, worse, hs, n - 1);
      NamespaceMonotone(nss[n - 1], worse, hs);
      SumsNoBetter(Totals(nss, worse, n - 1), CountsOf(nss[n - 1], worse),
                   Totals(nss, hs, n - 1), CountsOf(nss[n - 1], hs));
    }
  }

  ghost predicate HasGrade(ns: Namespace, hs: NodeHealths, h: Health)
    requires Gradable(ns, hs)
  {
    exists k :: 0 <= k < |ns.files| && FileGrade(ns.files[k], ns.replica, hs) == h
  }

  /** Some file of the first `n` namespaces has that grade. */
  ghost predicate SomeFile(nss: seq<Namespace>, hs: NodeHealths, n: nat, h: Health)
    requires GradableAll(nss, hs) && n <= |nss|
  {
    exists i :: 0 <= i < n && HasGrade(nss[i], hs, h)
  }

  lemma GradesShow(ns: Namespace, hs: NodeHealths, h: Health)
    requires Gradable(ns, hs)
    ensures multiset(Grades(ns, hs))[h] > 0 <==> HasGrade(ns, hs, h)
  {
    var g := Grades(ns, hs);
    assert h in multiset(g) <==> h in g;
    if h in g {
      var k :| 0 <= k < |g| && g[k] == h;
      assert FileGrade(ns.files[k], ns.replica, hs) == h;
    }
    if k :| 0 <= k < |ns.files| && FileGrade(ns.files[k], ns.replica, hs) == h {
      assert g[k] == h;
    }
  }

  lemma TotalsMore(nss: seq<Namespace>, hs: NodeHealths, n: nat)
    requires GradableAll(nss, hs) && n < |nss|
    ensures var t, u := Totals(nss, hs, n), Totals(nss, hs, n + 1);
            && t.yellow >= 0 && t.red >= 0
            && (u.yellow > 0 <==> t.yellow > 0 || HasGrade(nss[n], hs, Yellow))
            && (u.red > 0 <==> t.red > 0 || HasGrade(nss[n], hs, Red))
  {
    TotalsAddUp(nss, hs, n);
    GradesShow(nss[n], hs, Yellow);
    GradesShow(nss[n], hs, Red);
  }

  lemma {:induction false} YellowShows(nss: seq<Namespace>, hs: NodeHealths, n: nat)
    requires GradableAll(nss, hs) && n <= |nss|
    ensures Totals(nss, hs, n).yellow > 0 <==> SomeFile(nss, hs, n, Yellow)
    decreases n
  {
    if n > 0 {
      YellowShows(nss, hs, n - 1);
      TotalsMore(nss, hs, n - 1);
      OneNamespaceMore(nss, hs, n - 1, Yellow);
    }
  }

  lemma {:induction false} RedShows(nss: seq<Namespace>, hs: NodeHealths, n: nat)
    requires GradableAll(nss, hs) && n <= |nss|
    ensures Totals(nss, hs, n).red > 0 <==> SomeFile(nss, hs, n, Red)
    decreases n
  {
    if n > 0 {
      RedShows(nss, hs, n - 1);
      TotalsMore(nss, hs, n - 1);
      OneNamespaceMore(nss, hs, n - 1, Red);
    }
  }

  lemma OneNamespaceMore(nss: seq<Namespace>, hs: NodeHealths, n: nat, h: Health)
    requires GradableAll(nss, hs) && n < |nss|
    ensures SomeFile(nss, hs, n + 1, h) <==> SomeFile(nss, hs, n, h) || HasGrade(nss[n], hs, h)
  {
  }

  /** The system is green exactly if all files are, and red exactly if some file is; so it is yellow
      exactly if some file is yellow and none is red. */
  lemma {:induction false} SystemIs(nss: seq<Namespace>, hs: NodeHealths)
    requires GradableAll(nss, hs)
    ensures var h := SystemGrade(Totals(nss, hs, |nss|));
            && (h == Red <==> SomeFile(nss, hs, |nss|, Red))
            && (h == Yellow <==> SomeFile(nss, hs, |nss|, Yellow) && !SomeFile(nss, hs, |nss|, Red))
  {
    YellowShows(nss, hs, |nss|);
    RedShows(nss, hs, |nss|);
    TotalsAddUp(nss, hs, |nss|);
  }

  /** Worsening any nodes never improves the grade of the system. */
  lemma {:induction false} SystemMonotone(nss: seq<Namespace>, worse: NodeHealths, hs: NodeHealths)
    requires Worse(worse, hs) && GradableAll(nss, hs)
    ensures GradableAll(nss, worse)
    ensures NoBetter(SystemGrade(Totals(nss, worse, |nss|)), SystemGrade(Totals(nss, hs, |nss|)))
  {
    StillGradable(nss, worse, hs);
    TotalsMonotone(nss, worse, hs, |nss|);
    TotalsAddUp(nss, worse, |nss|);
    TotalsAddUp(nss, hs, |nss|);
  }
}
