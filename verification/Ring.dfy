/**
 The order in which a consistent-hash ring is walked clockwise from a hashed key.

 `Walk` is the reference definition: it knows nothing of sorted tables or of
 indexes, only of a set of hosts and of which of two hosts comes first when one
 leaves the point `from` in the direction of growing hashes.
 */
module Ring {

  type Hash = nat
  type Host = string

  /** From `from`, position `x` is met strictly before position `y`. */
  predicate Before(from: Hash, x: Hash, y: Hash) {
    if x >= from then y < from || x < y else y < from && x < y
  }

  ghost predicate Injective(md5: Host -> Hash, hosts: set<Host>) {
    forall x, y :: x in hosts && y in hosts && md5(x) == md5(y) ==> x == y
  }

  ghost predicate IsNext(md5: Host -> Hash, hosts: set<Host>, from: Hash, x: Host) {
    x in hosts && forall y :: y in hosts && y != x ==> Before(from, md5(x), md5(y))
  }

  lemma {:induction false} NextExists(md5: Host -> Hash, hosts: set<Host>, from: Hash)
    requires hosts != {} && Injective(md5, hosts)
    ensures exists x :: IsNext(md5, hosts, from, x)
  {
    var y :| y in hosts;
    if hosts == {y} {
      assert IsNext(md5, hosts, from, y);
    } else {
      NextExists(md5, hosts - {y}, from);
      var x :| IsNext(md5, hosts - {y}, from, x);
      if Before(from, md5(x), md5(y)) {
        assert IsNext(md5, hosts, from, x);
      } else {
        assert IsNext(md5, hosts, from, y);
      }
    }
  }

  /** All hosts in the order a clockwise walk from `from` meets them. */
  ghost function Walk(md5: Host -> Hash, hosts: set<Host>, from: Hash): seq<Host>
    requires Injective(md5, hosts)
    decreases |hosts|
  {
    if hosts == {} then [] else
      NextExists(md5, hosts, from);
      var x :| IsNext(md5, hosts, from, x);
      [x] + Walk(md5, hosts - {x}, from)
  }

  ghost predicate Clockwise(md5: Host -> Hash, from: Hash, w: seq<Host>) {
    forall i, j :: 0 <= i < j < |w| ==> Before(from, md5(w[i]), md5(w[j]))
  }

  /** `w` lists exactly the members of `hosts`. */
  ghost predicate Lists(w: seq<Host>, hosts: set<Host>) {
    forall h :: h in w <==> h in hosts
  }

  lemma {:induction false} WalkOrdered(md5: Host -> Hash, hosts: set<Host>, from: Hash)
    requires Injective(md5, hosts)
    ensures |Walk(md5, hosts, from)| == |hosts|
    ensures Lists(Walk(md5, hosts, from), hosts)
    ensures Clockwise(md5, from, Walk(md5, hosts, from))
    decreases |hosts|
  {
    if hosts != {} {
      NextExists(md5, hosts, from);
      var x := Walk(md5, hosts, from)[0];
      var rest := Walk(md5, hosts - {x}, from);
      assert Walk(md5, hosts, from) == [x] + rest && IsNext(md5, hosts, from, x);
      WalkOrdered(md5, hosts - {x}, from);
      ConsClockwise(md5, hosts, from, x, rest);
    }
  }

  lemma ConsClockwise(md5: Host -> Hash, hosts: set<Host>, from: Hash, x: Host, rest: seq<Host>)
    requires IsNext(md5, hosts, from, x) && Lists(rest, hosts - {x}) && Clockwise(md5, from, rest)
    ensures Clockwise(md5, from, [x] + rest) && Lists([x] + rest, hosts)
  {
    var w := [x] + rest;
    forall i, j | 0 <= i < j < |w| ensures Before(from, md5(w[i]), md5(w[j])) {
      assert w[j] == rest[j - 1] && rest[j - 1] in rest;
      if i > 0 {
        assert w[i] == rest[i - 1];
      }
    }
  }

  lemma TailLists(md5: Host -> Hash, hosts: set<Host>, from: Hash, w: seq<Host>)
    requires Clockwise(md5, from, w) && Lists(w, hosts) && w != []
    ensures Lists(w[1..], hosts - {w[0]})
  {
    var tail := w[1..];
    forall h ensures h in tail <==> h in hosts - {w[0]} {
      assert h in w <==> h == w[0] || h in tail;
      if h in tail {
        var j :| 0 <= j < |tail| && tail[j] == h;
        assert h == w[j + 1] && Before(from, md5(w[0]), md5(w[j + 1]));
      }
    }
  }

  lemma FirstIsNext(md5: Host -> Hash, hosts: set<Host>, from: Hash, w: seq<Host>, x: Host)
    requires Clockwise(md5, from, w) && Lists(w, hosts) && IsNext(md5, hosts, from, x)
    ensures w != [] && w[0] == x
  {
    assert x in w && w[0] in w;
    var k :| 0 <= k < |w| && w[k] == x;
    assert k > 0 ==> Before(from, md5(w[0]), md5(w[k]));
  }

  /** A clockwise listing of `hosts` is the walk over them: there is only one. */
  lemma {:induction false} WalkUnique(md5: Host -> Hash, hosts: set<Host>, from: Hash, w: seq<Host>)
    requires Injective(md5, hosts)
    requires Clockwise(md5, from, w) && Lists(w, hosts)
    ensures w == Walk(md5, hosts, from)
    decreases |w|
  {
    if w == [] {
      assert hosts == {};
    } else {
      assert w[0] in w;
      NextExists(md5, hosts, from);
      var x := Walk(md5, hosts, from)[0];
      FirstIsNext(md5, hosts, from, w, x);
      TailLists(md5, hosts, from, w);
      WalkUnique(md5, hosts - {x}, from, w[1..]);
    }
  }

  lemma {:induction false} WalkDistinct(md5: Host -> Hash, hosts: set<Host>, from: Hash)
    requires Injective(md5, hosts)
    ensures var w := Walk(md5, hosts, from); forall i, j :: 0 <= i < j < |w| ==> w[i] != w[j]
  {
    WalkOrdered(md5, hosts, from);
    var w := Walk(md5, hosts, from);
    forall i, j | 0 <= i < j < |w| ensures w[i] != w[j] {
      assert Before(from, md5(w[i]), md5(w[j]));
    }
  }

  // ---------------------------------------------------------------- growth

  /** How many hosts of `w` come before a host with hash `x`. */
  ghost function Place(md5: Host -> Hash, from: Hash, w: seq<Host>, x: Hash): (p: nat)
    ensures p <= |w|
  {
    if w == [] || Before(from, x, md5(w[0])) then 0 else 1 + Place(md5, from, w[1..], x)
  }

  lemma {:induction false} PlaceSplits(md5: Host -> Hash, from: Hash, w: seq<Host>, x: Hash)
    requires Clockwise(md5, from, w)
    requires forall i :: 0 <= i < |w| ==> md5(w[i]) != x
    ensures forall i :: 0 <= i < Place(md5, from, w, x) ==> Before(from, md5(w[i]), x)
    ensures forall i :: Place(md5, from, w, x) <= i < |w| ==> Before(from, x, md5(w[i]))
  {
    if w != [] && !Before(from, x, md5(w[0])) {
      var tail := w[1..];
      PlaceSplits(md5, from, tail, x);
      forall i | 0 <= i < |w| && i >= 1 ensures w[i] == tail[i - 1] {}
    }
  }

  /** Adding a host inserts it at its clockwise place and leaves the rest of the walk alone. */
  lemma {:induction false} WalkGrows(md5: Host -> Hash, hosts: set<Host>, from: Hash, x: Host)
    requires x !in hosts && Injective(md5, hosts + {x})
    ensures Injective(md5, hosts)
    ensures var w := Walk(md5, hosts, from);
            var p := Place(md5, from, w, md5(x));
            Walk(md5, hosts + {x}, from) == w[..p] + [x] + w[p..]
  {
    var w := Walk(md5, hosts, from);
    var p := Place(md5, from, w, md5(x));
    WalkOrdered(md5, hosts, from);
    forall i | 0 <= i < |w| ensures md5(w[i]) != md5(x) {
      assert w[i] in w;
    }
    PlaceSplits(md5, from, w, md5(x));
    InsertClockwise(md5, hosts, from, w, p, x);
    WalkUnique(md5, hosts + {x}, from, w[..p] + [x] + w[p..]);
  }

  lemma InsertClockwise(md5: Host -> Hash, hosts: set<Host>, from: Hash, w: seq<Host>, p: nat, x: Host)
    requires p <= |w| && Clockwise(md5, from, w) && Lists(w, hosts)
    requires forall i :: 0 <= i < p ==> Before(from, md5(w[i]), md5(x))
    requires forall i :: p <= i < |w| ==> Before(from, md5(x), md5(w[i]))
    ensures Clockwise(md5, from, w[..p] + [x] + w[p..])
    ensures Lists(w[..p] + [x] + w[p..], hosts + {x})
  {
    var v := w[..p] + [x] + w[p..];
    forall i, j | 0 <= i < j < |v| ensures Before(from, md5(v[i]), md5(v[j])) {
      assert v[i] == if i < p then w[i] else if i == p then x else w[i - 1];
      assert v[j] == if j < p then w[j] else if j == p then x else w[j - 1];
    }
    forall h ensures h in v <==> h in hosts + {x} {
      if h in hosts {
        var k :| 0 <= k < |w| && w[k] == h;
        assert v[if k < p then k else k + 1] == h;
      }
      assert v[p] == x;
    }
  }

  /** The number of successors a gateway over `n` hosts keeps for every key. */
  function Backups(n: nat): (b: nat)
    ensures b <= n && b <= 4
  {
    if n < 4 then n else 4
  }

  ghost function Successors(md5: Host -> Hash, hosts: set<Host>, from: Hash): (w: seq<Host>)
    requires Injective(md5, hosts)
    ensures |w| == Backups(|hosts|)
  {
    WalkOrdered(md5, hosts, from);
    Walk(md5, hosts, from)[..Backups(|hosts|)]
  }

  /**
   What a new host does to the successor list of any key: if its clockwise place lies
   beyond the old list's reach nothing changes, otherwise the old list is cut after the
   newcomer has been inserted.
   */
  lemma {:induction false} SuccessorsGrow(md5: Host -> Hash, hosts: set<Host>, from: Hash, x: Host)
    requires x !in hosts && Injective(md5, hosts + {x})
    ensures Injective(md5, hosts)
    ensures var old_ := Successors(md5, hosts, from);
            var new_ := Successors(md5, hosts + {x}, from);
            var p := Place(md5, from, Walk(md5, hosts, from), md5(x));
            if p >= 4 then new_ == old_
            else p <= |old_| && new_ == (old_[..p] + [x] + old_[p..])[..Backups(|hosts| + 1)]
  {
    WalkGrows(md5, hosts, from, x);
    WalkOrdered(md5, hosts, from);
    assert |hosts + {x}| == |hosts| + 1;
    var w := Walk(md5, hosts, from);
    CutInsertion(w, Place(md5, from, w, md5(x)), x);
  }

  lemma CutInsertion(w: seq<Host>, p: nat, x: Host)
    requires p <= |w|
    ensures var old_ := w[..Backups(|w|)];
            var new_ := (w[..p] + [x] + w[p..])[..Backups(|w| + 1)];
            if p >= 4 then new_ == old_
            else p <= |old_| && new_ == (old_[..p] + [x] + old_[p..])[..Backups(|w| + 1)]
  {
  }

  /** A host at position `p` keeps being listed through any `m` additions with `p + m < 4`. */
  lemma {:induction false} StillListed(md5: Host -> Hash, hosts: set<Host>, from: Hash, added: seq<Host>,
                                       all: set<Host>, p: nat)
    requires forall h :: h in all <==> h in hosts || h in added
    requires forall i :: 0 <= i < |added| ==> added[i] !in hosts
    requires forall i, j :: 0 <= i < j < |added| ==> added[i] != added[j]
    requires Injective(md5, all) && Injective(md5, hosts)
    requires p < |Successors(md5, hosts, from)|
    requires p + |added| < 4
    ensures exists q :: p <= q <= p + |added| && q < |Successors(md5, all, from)|
                        && Successors(md5, all, from)[q] == Successors(md5, hosts, from)[p]
    decreases |added|
  {
    if added == [] {
      assert all == hosts;
      assert Successors(md5, all, from)[p] == Successors(md5, hosts, from)[p];
    } else {
      var x, rest := added[0], added[1..];
      var more := hosts + {x};
      assert forall h :: h in added <==> h == x || h in rest;
      SuccessorsGrow(md5, hosts, from, x);
      var p' := StepListed(md5, hosts, from, x, p);
      StillListed(md5, more, from, rest, all, p');
    }
  }

  lemma StepListed(md5: Host -> Hash, hosts: set<Host>, from: Hash, x: Host, p: nat) returns (q: nat)
    requires x !in hosts && Injective(md5, hosts + {x}) && Injective(md5, hosts)
    requires p < |Successors(md5, hosts, from)| && p < 3
    ensures p <= q <= p + 1 && q < |Successors(md5, hosts + {x}, from)|
    ensures Successors(md5, hosts + {x}, from)[q] == Successors(md5, hosts, from)[p]
  {
    SuccessorsGrow(md5, hosts, from, x);
    assert |hosts + {x}| == |hosts| + 1;
    q := if Place(md5, from, Walk(md5, hosts, from), md5(x)) <= p then p + 1 else p;
  }
}
