/**
 The IPFS gateway: a table of successors, built once over the sorted hosts and
 consulted by binary search, that must answer every key as a clockwise walk of the
 ring would.
 */
module Gateway {
  import opened Wrappers
  import opened Ring
  import opened Sequences

  datatype Client = Client(shID: Hash, sh: Host)

  datatype GatewayError = NoHosts | DuplicatedHash(host: Host)

  /** The answer of one peer to a pin request. */
  datatype PinReply<+T> = Done(info: T) | NotPinned | Broken(reason: string)

  ghost predicate Ascending(cs: seq<Client>) {
    forall i, j :: 0 <= i < j < |cs| ==> cs[i].shID < cs[j].shID
  }

  // ---------------------------------------------------------------- sorting the clients

  /** `r` holds the members of `cs` and `c` besides. */
  ghost predicate Gains(r: seq<Client>, cs: seq<Client>, c: Client) {
    |r| == |cs| + 1 && forall x :: x in r <==> x == c || x in cs
  }

  function InsertClient(cs: seq<Client>, c: Client): (r: seq<Client>)
    requires Ascending(cs) && forall i :: 0 <= i < |cs| ==> cs[i].shID != c.shID
    ensures Ascending(r) && Gains(r, cs, c)
  {
    if cs == [] || c.shID < cs[0].shID then [c] + cs
    else
      var rest := InsertClient(cs[1..], c);
      ConsAscending(cs, c, rest);
      [cs[0]] + rest
  }

  lemma ConsAscending(cs: seq<Client>, c: Client, rest: seq<Client>)
    requires cs != [] && Ascending(cs) && cs[0].shID < c.shID
    requires Ascending(rest) && Gains(rest, cs[1..], c)
    ensures Ascending([cs[0]] + rest) && Gains([cs[0]] + rest, cs, c)
  {
    var r := [cs[0]] + rest;
    forall j | 0 <= j < |rest| ensures cs[0].shID < rest[j].shID {
      assert rest[j] in rest;
    }
    forall x ensures x in r <==> x == c || x in cs {
      assert x in cs <==> x == cs[0] || x in cs[1..];
    }
  }

  function SortClients(cs: seq<Client>): (r: seq<Client>)
    requires forall i, j :: 0 <= i < j < |cs| ==> cs[i].shID != cs[j].shID
    ensures Ascending(r) && |r| == |cs|
    ensures forall x :: x in r <==> x in cs
  {
    if cs == [] then []
    else
      var init, last := cs[..|cs| - 1], cs[|cs| - 1];
      var r := SortClients(init);
      assert forall i :: 0 <= i < |r| ==> r[i] in r;
      assert forall x :: x in cs <==> x == last || x in init;
      InsertClient(r, last)
  }

  ghost function Shells(cs: seq<Client>): (w: seq<Host>)
    ensures |w| == |cs|
  {
    seq(|cs|, i requires 0 <= i < |cs| => cs[i].sh)
  }

  /** The position `k` steps past `i` on a circle of `n` places. */
  function Around(i: nat, k: nat, n: nat): (j: nat)
    requires i < n && k <= n
    ensures k < n ==> j < n
  {
    if i + k >= n then i + k - n else i + k
  }

  ghost predicate NoDuplicates(md5: Host -> Hash, hosts: seq<Host>) {
    forall i, j :: 0 <= i < j < |hosts| ==> md5(hosts[i]) != md5(hosts[j])
  }

  class IpfsGateway {
    ghost const md5: Host -> Hash
    var backups: nat
    var successors: map<Hash, seq<Host>>
    var clients: seq<Client>
    ghost var hosts: set<Host>

    constructor (ghost md5: Host -> Hash)
      ensures this.md5 == md5 && backups == 4 && successors == map[] && clients == [] && hosts == {}
    {
      this.md5 := md5;
      backups := 4;
      successors := map[];
      clients := [];
      hosts := {};
    }

    ghost predicate Valid()
      reads this
    {
      && clients != []
      && Ascending(clients)
      && Hashed(md5, clients)
      && Lists(Shells(clients), hosts)
      && backups == Backups(|clients|)
      && (forall i :: 0 <= i < |clients| ==> RowIs(successors, clients, i, backups))
    }

    /** Returns the successors of a key: what a clockwise walk from its hash meets first. */
    method GetShells(key: Host, bms: Hash) returns (shells: seq<Host>)
      requires Valid() && bms == md5(key)
      ensures Injective(md5, hosts)
      ensures shells == Successors(md5, hosts, md5(key))
      ensures |shells| > 0 && forall i, j :: 0 <= i < j < |shells| ==> shells[i] != shells[j]
    {
      var low, high := 0, |clients|;
      while low < high
        invariant 0 <= low <= high <= |clients|
        invariant forall k :: 0 <= k < low ==> clients[k].shID < bms
        invariant forall k :: high <= k < |clients| ==> clients[k].shID >= bms
      {
        var mid := (low + high) / 2;
        if clients[mid].shID >= bms { high := mid; } else { low := mid + 1; }
      }
      var index := if low >= |clients| then 0 else low;
      TableIsWalk(md5, clients, hosts, bms, low, successors, backups);
      WalkDistinct(md5, hosts, bms);
      shells := successors[clients[index].shID];
    }

    /** Tries the successors in order until one of them accepts the content. */
    method Add(key: Host, bms: Hash, accepts: Host -> Option<string>) returns (cid: Option<(Host, string)>)
      requires Valid() && bms == md5(key)
      ensures Injective(md5, hosts)
      ensures cid == FirstAnswer(Successors(md5, hosts, md5(key)), accepts)
    {
      var shs := GetShells(key, bms);
      for i := 0 to |shs|
        invariant forall k :: 0 <= k < i ==> accepts(shs[k]).None?
      {
        if accepts(shs[i]).Some? {
          FirstAnswerAt(shs, accepts, i);
          return Some((shs[i], accepts(shs[i]).value));
        }
      }
      NoAnswer(shs, accepts);
      return None;
    }

    /** Tries the successors in order until one of them serves the content. */
    method Cat(key: Host, bms: Hash, serves: Host -> Option<string>) returns (data: Option<(Host, string)>)
      requires Valid() && bms == md5(key)
      ensures Injective(md5, hosts)
      ensures data == FirstAnswer(Successors(md5, hosts, md5(key)), serves)
    {
      var shs := GetShells(key, bms);
      for i := 0 to |shs|
        invariant forall k :: 0 <= k < i ==> serves(shs[k]).None?
      {
        if serves(shs[i]).Some? {
          FirstAnswerAt(shs, serves, i);
          return Some((shs[i], serves(shs[i]).value));
        }
      }
      NoAnswer(shs, serves);
      return None;
    }

    /**
     Asks the successors, then every client. The scan stops at the first reply other
     than "not pinned"; only when no client at all holds a pin is the answer empty.
     */
    method PinLs(key: Host, bms: Hash, ask: Host -> PinReply<string>) returns (r: PinReply<string>)
      requires Valid() && bms == md5(key)
      ensures r.NotPinned? <==> forall h :: h in hosts ==> ask(h).NotPinned?
      ensures !r.NotPinned? ==> exists h :: h in hosts && ask(h) == r
      ensures Injective(md5, hosts)
      ensures FirstPin(Successors(md5, hosts, md5(key)), ask).Some? ==>
                r == FirstPin(Successors(md5, hosts, md5(key)), ask).value
    {
      var shs := GetShells(key, bms);
      WalkOrdered(md5, hosts, md5(key));
      assert forall k :: 0 <= k < |shs| ==> shs[k] == Walk(md5, hosts, md5(key))[k];
      assert forall k :: 0 <= k < |shs| ==> shs[k] in Walk(md5, hosts, md5(key));
      for i := 0 to |shs|
        invariant forall k :: 0 <= k < i ==> ask(shs[k]).NotPinned?
      {
        if !ask(shs[i]).NotPinned? {
          FirstPinAt(shs, ask, i);
          return ask(shs[i]);
        }
      }
      FirstPinAt(shs, ask, |shs|);
      for i := 0 to |clients|
        invariant forall k :: 0 <= k < i ==> ask(clients[k].sh).NotPinned?
      {
        if !ask(clients[i].sh).NotPinned? {
          assert Shells(clients)[i] in Shells(clients);
          return ask(clients[i].sh);
        }
      }
      assert forall h :: h in hosts ==> h in Shells(clients);
      return NotPinned;
    }
  }

  /** Creates the gateway, or reports that there is no host or that two hosts collide. */
  method NewGateway(hosts: seq<Host>, md5: Host -> Hash) returns (r: Result<IpfsGateway, GatewayError>)
    ensures r.Failure? <==> hosts == [] || !NoDuplicates(md5, hosts)
    ensures r.Failure? ==> (r.error.NoHosts? <==> hosts == [])
    ensures r.Success? ==> fresh(r.value) && r.value.Valid() && r.value.md5 == md5
    ensures r.Success? ==> Lists(hosts, r.value.hosts)
  {
    if |hosts| == 0 { return Failure(NoHosts); }
    var gw := new IpfsGateway(md5);
    if |hosts| < gw.backups { gw.backups := |hosts|; }
    var duplicate := CreateClients(gw, hosts, md5);
    if duplicate.Some? { return Failure(DuplicatedHash(duplicate.value)); }
    gw.hosts := set h | h in hosts;
    SortedClients(md5, hosts, gw.clients, gw.hosts);
    gw.clients := SortClients(gw.clients);
    FillSuccessors(gw, |hosts|);
    return Success(gw);
  }

  /** Creates one client a host, with an empty row of successors, until two hashes collide. */
  method CreateClients(gw: IpfsGateway, hosts: seq<Host>, md5: Host -> Hash) returns (duplicate: Option<Host>)
    requires gw.clients == [] && gw.successors == map[]
    modifies gw`clients, gw`successors
    ensures duplicate.Some? <==> !NoDuplicates(md5, hosts)
    ensures duplicate.None? ==> |gw.clients| == |hosts|
    ensures duplicate.None? ==>
              forall k :: 0 <= k < |hosts| ==> gw.clients[k] == Client(md5(hosts[k]), hosts[k])
    ensures forall h :: h in gw.successors ==> gw.successors[h] == []
    ensures duplicate.None? ==> forall c :: c in gw.clients ==> c.shID in gw.successors
  {
    for i := 0 to |hosts|
      invariant |gw.clients| == i
      invariant forall k :: 0 <= k < i ==> gw.clients[k] == Client(md5(hosts[k]), hosts[k])
      invariant forall h :: h in gw.successors ==>
                  gw.successors[h] == [] && exists k :: 0 <= k < i && md5(hosts[k]) == h
      invariant forall k :: 0 <= k < i ==> md5(hosts[k]) in gw.successors
      invariant forall j, k :: 0 <= j < k < i ==> md5(hosts[j]) != md5(hosts[k])
    {
      var bms := md5(hosts[i]);
      if bms !in gw.successors {
        gw.successors := gw.successors[bms := []];
        gw.clients := gw.clients + [Client(bms, hosts[i])];
      } else {
        return Some(hosts[i]);
      }
    }
    return None;
  }

  lemma {:induction false} SortedClients(md5: Host -> Hash, hosts: seq<Host>, cs: seq<Client>, all: set<Host>)
    requires |cs| == |hosts| && forall k :: 0 <= k < |hosts| ==> cs[k] == Client(md5(hosts[k]), hosts[k])
    requires NoDuplicates(md5, hosts) && Lists(hosts, all)
    ensures forall i, j :: 0 <= i < j < |cs| ==> cs[i].shID != cs[j].shID
    ensures Lists(Shells(SortClients(cs)), all) && Hashed(md5, SortClients(cs))
  {
    forall i, j | 0 <= i < j < |cs| ensures cs[i].shID != cs[j].shID {
      assert md5(hosts[i]) != md5(hosts[j]);
    }
    var w := SortClients(cs);
    forall k | 0 <= k < |w| ensures w[k].shID == md5(w[k].sh) {
      assert w[k] in w && w[k] in cs;
    }
    forall h ensures h in Shells(w) <==> h in all {
      InShells(w, h);
      InShells(cs, h);
      assert Shells(cs) == hosts;
    }
  }

  lemma InShells(cs: seq<Client>, h: Host)
    ensures h in Shells(cs) <==> exists c :: c in cs && c.sh == h
  {
    if h in Shells(cs) {
      var k :| 0 <= k < |cs| && Shells(cs)[k] == h;
      assert cs[k] in cs;
    }
    if c :| c in cs && c.sh == h {
      var k :| 0 <= k < |cs| && cs[k] == c;
      assert Shells(cs)[k] == h;
    }
  }

  /** Sets the successors of every client: itself and those that follow it on the circle. */
  method FillSuccessors(gw: IpfsGateway, num: nat)
    requires |gw.clients| == num > 0 && Ascending(gw.clients) && gw.backups == Backups(num)
    requires forall c :: c in gw.clients ==> c.shID in gw.successors && gw.successors[c.shID] == []
    modifies gw`successors
    ensures forall k :: 0 <= k < num ==> RowIs(gw.successors, gw.clients, k, gw.backups)
  {
    for i := 0 to num
      invariant forall k :: 0 <= k < i ==> RowIs(gw.successors, gw.clients, k, gw.backups)
      invariant forall k :: i <= k < num ==>
                  gw.clients[k].shID in gw.successors && gw.successors[gw.clients[k].shID] == []
    {
      var strShID := gw.clients[i].shID;
      var j, row := i, gw.successors[strShID];
      for c := 0 to gw.backups
        invariant row == Row(gw.clients, i, c)
        invariant 0 <= j <= num && (j == i + c || (i + c >= num && j == i + c - num))
      {
        if j >= num { j := j - num; }
        assert j == Around(i, c, num);
        row := row + [gw.clients[j].sh];
        j := j + 1;
      }
      ghost var before := gw.successors;
      gw.successors := gw.successors[strShID := row];
      forall k | 0 <= k < i + 1 ensures RowIs(gw.successors, gw.clients, k, gw.backups) {
        assert k < i ==> gw.clients[k].shID < strShID && RowIs(before, gw.clients, k, gw.backups);
      }
    }
  }

  ghost function Row(cs: seq<Client>, i: nat, b: nat): (row: seq<Host>)
    requires i < |cs| && b <= |cs|
    ensures |row| == b
  {
    seq(b, k requires 0 <= k < b => cs[Around(i, k, |cs|)].sh)
  }

  ghost predicate RowIs(table: map<Hash, seq<Host>>, cs: seq<Client>, i: nat, b: nat)
    requires i < |cs| && b <= |cs|
  {
    cs[i].shID in table && table[cs[i].shID] == Row(cs, i, b)
  }

  // ---------------------------------------------------------------- the table is the walk

  ghost function Rotation(cs: seq<Client>, split: nat): (w: seq<Host>)
    requires split <= |cs|
    ensures |w| == |cs|
  {
    seq(|cs|, k requires 0 <= k < |cs| => (if split + k < |cs| then cs[split + k] else cs[split + k - |cs|]).sh)
  }

  ghost predicate Hashed(md5: Host -> Hash, cs: seq<Client>) {
    forall i :: 0 <= i < |cs| ==> cs[i].shID == md5(cs[i].sh)
  }

  lemma {:induction false} RotationIsWalk(md5: Host -> Hash, cs: seq<Client>, hosts: set<Host>, from: Hash, split: nat)
    requires Ascending(cs) && Hashed(md5, cs) && Lists(Shells(cs), hosts)
    requires split <= |cs|
    requires forall k :: 0 <= k < split ==> cs[k].shID < from
    requires forall k :: split <= k < |cs| ==> cs[k].shID >= from
    ensures Injective(md5, hosts)
    ensures Rotation(cs, split) == Walk(md5, hosts, from)
  {
    ClientsInjective(md5, cs, hosts);
    RotationClockwise(md5, cs, from, split);
    RotationLists(cs, hosts, split);
    WalkUnique(md5, hosts, from, Rotation(cs, split));
  }

  /** The row found by the search is the start of the walk. */
  lemma TableIsWalk(md5: Host -> Hash, cs: seq<Client>, hosts: set<Host>, from: Hash, split: nat,
                    table: map<Hash, seq<Host>>, b: nat)
    requires cs != [] && Ascending(cs) && Hashed(md5, cs) && Lists(Shells(cs), hosts)
    requires split <= |cs| && b == Backups(|cs|)
    requires forall k :: 0 <= k < split ==> cs[k].shID < from
    requires forall k :: split <= k < |cs| ==> cs[k].shID >= from
    requires RowIs(table, cs, if split == |cs| then 0 else split, b)
    ensures Injective(md5, hosts)
    ensures table[cs[if split == |cs| then 0 else split].shID] == Successors(md5, hosts, from)
  {
    RotationIsWalk(md5, cs, hosts, from, split);
    WalkOrdered(md5, hosts, from);
    assert Row(cs, if split == |cs| then 0 else split, b) == Rotation(cs, split)[..b];
  }

  lemma ClientsInjective(md5: Host -> Hash, cs: seq<Client>, hosts: set<Host>)
    requires Ascending(cs) && Hashed(md5, cs) && Lists(Shells(cs), hosts)
    ensures Injective(md5, hosts)
  {
    forall x, y | x in hosts && y in hosts && md5(x) == md5(y) ensures x == y {
      assert x in Shells(cs) && y in Shells(cs);
      var i :| 0 <= i < |cs| && cs[i].sh == x;
      var j :| 0 <= j < |cs| && cs[j].sh == y;
    }
  }

  lemma RotationClockwise(md5: Host -> Hash, cs: seq<Client>, from: Hash, split: nat)
    requires Ascending(cs) && Hashed(md5, cs)
    requires split <= |cs|
    requires forall k :: 0 <= k < split ==> cs[k].shID < from
    requires forall k :: split <= k < |cs| ==> cs[k].shID >= from
    ensures Clockwise(md5, from, Rotation(cs, split))
  {
    var w := Rotation(cs, split);
    forall i, j | 0 <= i < j < |w| ensures Before(from, md5(w[i]), md5(w[j])) {
      var a := if split + i < |cs| then split + i else split + i - |cs|;
      var b := if split + j < |cs| then split + j else split + j - |cs|;
      assert w[i] == cs[a].sh && w[j] == cs[b].sh;
    }
  }

  lemma RotationLists(cs: seq<Client>, hosts: set<Host>, split: nat)
    requires Lists(Shells(cs), hosts) && split <= |cs|
    ensures Lists(Rotation(cs, split), hosts)
  {
    var w := Rotation(cs, split);
    forall h ensures h in w <==> h in hosts {
      if h in w {
        var k :| 0 <= k < |cs| && w[k] == h;
        assert Shells(cs)[if split + k < |cs| then split + k else split + k - |cs|] == h;
      }
      if h in hosts {
        assert h in Shells(cs);
        var k :| 0 <= k < |cs| && Shells(cs)[k] == h;
        assert w[if k >= split then k - split else k + |cs| - split] == h;
      }
    }
  }

  // ---------------------------------------------------------------- the answer of a scan

  function FirstAnswer(hosts: seq<Host>, ask: Host -> Option<string>): (r: Option<(Host, string)>)
  {
    if hosts == [] then None
    else if ask(hosts[0]).Some? then Some((hosts[0], ask(hosts[0]).value))
    else FirstAnswer(hosts[1..], ask)
  }

  lemma {:induction false} FirstAnswerAt(hosts: seq<Host>, ask: Host -> Option<string>, k: nat)
    requires k < |hosts| && ask(hosts[k]).Some?
    requires forall i :: 0 <= i < k ==> ask(hosts[i]).None?
    ensures FirstAnswer(hosts, ask) == Some((hosts[k], ask(hosts[k]).value))
  {
    if k > 0 {
      assert forall i :: 0 <= i < k - 1 ==> hosts[1..][i] == hosts[i + 1];
      FirstAnswerAt(hosts[1..], ask, k - 1);
    }
  }

  lemma {:induction false} NoAnswer(hosts: seq<Host>, ask: Host -> Option<string>)
    ensures FirstAnswer(hosts, ask).None? <==> forall i :: 0 <= i < |hosts| ==> ask(hosts[i]).None?
    ensures FirstAnswer(hosts, ask).Some? ==>
              FirstAnswer(hosts, ask).value.0 in hosts
              && ask(FirstAnswer(hosts, ask).value.0) == Some(FirstAnswer(hosts, ask).value.1)
  {
    if hosts != [] {
      assert hosts == [hosts[0]] + hosts[1..];
      assert forall i :: 0 < i < |hosts| ==> hosts[i] == hosts[1..][i - 1];
      NoAnswer(hosts[1..], ask);
    }
  }

  function FirstPin(hosts: seq<Host>, ask: Host -> PinReply<string>): (r: Option<PinReply<string>>) {
    if hosts == [] then None
    else if !ask(hosts[0]).NotPinned? then Some(ask(hosts[0]))
    else FirstPin(hosts[1..], ask)
  }

  lemma {:induction false} FirstPinAt(hosts: seq<Host>, ask: Host -> PinReply<string>, k: nat)
    requires k <= |hosts| && forall i :: 0 <= i < k ==> ask(hosts[i]).NotPinned?
    requires k < |hosts| ==> !ask(hosts[k]).NotPinned?
    ensures FirstPin(hosts, ask) == if k < |hosts| then Some(ask(hosts[k])) else None
  {
    if k > 0 {
      assert forall i :: 0 <= i < |hosts| - 1 ==> hosts[1..][i] == hosts[i + 1];
      FirstPinAt(hosts[1..], ask, k - 1);
    }
  }

  /**
   Content accepted by a host at position `p` of a key's list is still found after any
   `m` later additions of hosts, `p + m < 4`, as long as that one host serves it.
   */
  lemma CatAfterGrowth(md5: Host -> Hash, hosts: set<Host>, key: Host, added: seq<Host>, all: set<Host>,
                       p: nat, serves: Host -> Option<string>)
    requires forall h :: h in all <==> h in hosts || h in added
    requires forall i :: 0 <= i < |added| ==> added[i] !in hosts
    requires forall i, j :: 0 <= i < j < |added| ==> added[i] != added[j]
    requires Injective(md5, all) && Injective(md5, hosts)
    requires p < |Successors(md5, hosts, md5(key))| && p + |added| < 4
    requires serves(Successors(md5, hosts, md5(key))[p]).Some?
    ensures FirstAnswer(Successors(md5, all, md5(key)), serves).Some?
  {
    StillListed(md5, hosts, md5(key), added, all, p);
    NoAnswer(Successors(md5, all, md5(key)), serves);
  }

  /** Neither acceptance nor the set of hosts depends on the order of the arguments. */
  lemma OrderIrrelevant(md5: Host -> Hash, a: seq<Host>, b: seq<Host>)
    requires multiset(a) == multiset(b)
    ensures NoDuplicates(md5, a) <==> NoDuplicates(md5, b)
    ensures forall hosts :: Lists(a, hosts) <==> Lists(b, hosts)
  {
    assert forall h :: h in a <==> h in multiset(a);
    assert forall h :: h in b <==> h in multiset(b);
    if NoDuplicates(md5, a) { DuplicatesTravel(md5, a, b); }
    if NoDuplicates(md5, b) { DuplicatesTravel(md5, b, a); }
  }

  /** The hosts a new gateway lists for a key. */
  method ShellsFor(hosts: seq<Host>, ghost all: set<Host>, md5: Host -> Hash, key: Host, bms: Hash)
    returns (r: Result<seq<Host>, GatewayError>)
    requires Lists(hosts, all) && bms == md5(key)
    ensures r.Success? <==> hosts != [] && NoDuplicates(md5, hosts)
    ensures r.Failure? ==> (r.error.NoHosts? <==> hosts == [])
    ensures r.Success? ==> Injective(md5, all) && r.value == Successors(md5, all, md5(key))
  {
    var made := NewGateway(hosts, md5);
    if made.Failure? { return Failure(made.error); }
    assert forall h :: h in made.value.hosts <==> h in hosts;
    assert made.value.hosts == all;
    var shells := made.value.GetShells(key, bms);
    return Success(shells);
  }

  /** Gateways made from the same hosts in another order list the same hosts in the same order for every key. */
  method ShellsAgree(a: seq<Host>, b: seq<Host>, md5: Host -> Hash, key: Host, bms: Hash)
    returns (x: Result<seq<Host>, GatewayError>, y: Result<seq<Host>, GatewayError>)
    requires multiset(a) == multiset(b) && bms == md5(key)
    ensures x.Success? <==> y.Success?
    ensures x.Success? ==> x == y
    ensures x.Failure? ==> (x.error.NoHosts? <==> y.error.NoHosts?)
  {
    OrderIrrelevant(md5, a, b);
    ghost var all := set h | h in a;
    assert Lists(a, all) && Lists(b, all);
    assert a == [] <==> b == [] by { assert |multiset(a)| == |a| && |multiset(b)| == |b|; }
    x := ShellsFor(a, all, md5, key, bms);
    y := ShellsFor(b, all, md5, key, bms);
  }

  lemma DuplicatesTravel(md5: Host -> Hash, a: seq<Host>, b: seq<Host>)
    requires multiset(a) == multiset(b) && NoDuplicates(md5, a)
    ensures NoDuplicates(md5, b)
  {
    DistinctPermutes(a, b);
    forall i, j | 0 <= i < j < |b| ensures md5(b[i]) != md5(b[j]) {
      assert b[i] in multiset(b) && b[j] in multiset(b);
      var k :| 0 <= k < |a| && a[k] == b[i];
      var l :| 0 <= l < |a| && a[l] == b[j];
      assert b[i] != b[j];
    }
  }
}
