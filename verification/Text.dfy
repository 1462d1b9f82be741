/** Strings in the order of sort.Strings. */
module Text {
  import opened Sequences

  /** Byte-wise order: a proper prefix comes first. */
  predicate Less(a: string, b: string) {
    b != [] && (a == [] || a[0] < b[0] || (a[0] == b[0] && Less(a[1..], b[1..])))
  }

  lemma {:induction false} LessTotal(a: string, b: string)
    ensures a == b || Less(a, b) || Less(b, a)
    ensures !(Less(a, b) && Less(b, a)) && !Less(a, a)
  {
    if a != [] {
      LessTotal(a[1..], a[1..]);
      if b != [] {
        LessTotal(a[1..], b[1..]);
        assert a == [a[0]] + a[1..] && b == [b[0]] + b[1..];
      }
    }
  }

  /** `a` and `b` agree up to `n`, where `a` ends or has the smaller character. */
  ghost predicate FirstDiffers(a: string, b: string, n: nat) {
    && n <= |a| && n < |b| && (forall i :: 0 <= i < n ==> a[i] == b[i])
    && (n == |a| || a[n] < b[n])
  }

  lemma {:induction false} LessDiffers(a: string, b: string) returns (n: nat)
    requires Less(a, b)
    ensures FirstDiffers(a, b, n)
  {
    n := 0;
    if a != [] && a[0] == b[0] {
      var m := LessDiffers(a[1..], b[1..]);
      n := m + 1;
      forall i | 0 <= i < n ensures a[i] == b[i] {
        if i > 0 { assert a[1..][i - 1] == b[1..][i - 1]; }
      }
    }
  }

  lemma {:induction false} DiffersLess(a: string, b: string, n: nat)
    requires FirstDiffers(a, b, n)
    ensures Less(a, b)
  {
    if n > 0 {
      assert forall i :: 0 <= i < n - 1 ==> a[1..][i] == a[i + 1] && b[1..][i] == b[i + 1];
      DiffersLess(a[1..], b[1..], n - 1);
    }
  }

  /** The order is by the first place where two strings differ, whatever their lengths. */
  lemma {:induction false} LessBytewise(a: string, b: string)
    ensures Less(a, b) <==> exists n: nat :: FirstDiffers(a, b, n)
  {
    if Less(a, b) {
      var n := LessDiffers(a, b);
    }
    if n: nat :| FirstDiffers(a, b, n) {
      DiffersLess(a, b, n);
    }
  }

  lemma {:induction false} LessTransitive(a: string, b: string, c: string)
    requires Less(a, b) && Less(b, c)
    ensures Less(a, c)
  {
    if a != [] && a[0] == b[0] == c[0] {
      LessTransitive(a[1..], b[1..], c[1..]);
    }
  }

  /** Strictly ascending, hence without repetition. */
  ghost predicate Ascending(w: seq<string>) {
    forall i, j :: 0 <= i < j < |w| ==> Less(w[i], w[j])
  }

  /** `w` is the sorted list of the members of `s`. */
  ghost predicate Sorts(w: seq<string>, s: set<string>) {
    Ascending(w) && forall x :: x in w <==> x in s
  }

  lemma {:induction false} SortsFirst(w: seq<string>, s: set<string>, x: string)
    requires Sorts(w, s) && x in s
    ensures w != [] && w[0] in s && (x == w[0] || Less(w[0], x))
  {
    var k :| 0 <= k < |w| && w[k] == x;
    assert w[0] in w;
  }

  lemma SortsTail(w: seq<string>, s: set<string>)
    requires Sorts(w, s) && w != []
    ensures Sorts(w[1..], s - {w[0]})
  {
    LessTotal(w[0], w[0]);
    forall x ensures x in w[1..] <==> x in s - {w[0]} {
      assert x in w <==> x == w[0] || x in w[1..];
      if x in w[1..] {
        var k :| 0 <= k < |w[1..]| && w[1..][k] == x;
        assert Less(w[0], w[k + 1]);
      }
    }
  }

  /** A set has one sorted list. */
  lemma {:induction false} SortsUnique(v: seq<string>, w: seq<string>, s: set<string>)
    requires Sorts(v, s) && Sorts(w, s)
    ensures v == w
  {
    assert v != [] ==> v[0] in v;
    assert w != [] ==> w[0] in w;
    if v != [] {
      SortsFirst(w, s, v[0]);
      SortsFirst(v, s, w[0]);
      LessTotal(v[0], w[0]);
      SortsTail(v, s);
      SortsTail(w, s);
      SortsUnique(v[1..], w[1..], s - {v[0]});
    }
  }

  /** Ascending, repetitions allowed. */
  ghost predicate Sorted(w: seq<string>) {
    forall i, j :: 0 <= i < j < |w| ==> !Less(w[j], w[i])
  }

  lemma SortedAscends(w: seq<string>)
    requires Sorted(w) && Distinct(w)
    ensures Ascending(w)
  {
    forall i, j | 0 <= i < j < |w| ensures Less(w[i], w[j]) {
      LessTotal(w[i], w[j]);
    }
  }

  /** Puts one more string into its place. */
  function Insert(w: seq<string>, x: string): (r: seq<string>)
    requires Sorted(w)
    ensures Sorted(r) && multiset(r) == multiset(w) + multiset{x}
  {
    if w == [] || Less(x, w[0]) then
      InsertFront(w, x);
      [x] + w
    else
      var rest := Insert(w[1..], x);
      InsertBehind(w, x, rest);
      [w[0]] + rest
  }

  lemma {:induction false} InsertFront(w: seq<string>, x: string)
    requires Sorted(w) && (w == [] || Less(x, w[0]))
    ensures Sorted([x] + w)
  {
    forall k | 0 <= k < |w| ensures !Less(w[k], x) {
      LessTotal(x, w[0]);
      if k > 0 && Less(w[k], x) { LessTransitive(w[k], x, w[0]); }
    }
  }

  lemma {:induction false} InsertBehind(w: seq<string>, x: string, rest: seq<string>)
    requires w != [] && Sorted(w) && !Less(x, w[0])
    requires Sorted(rest) && multiset(rest) == multiset(w[1..]) + multiset{x}
    ensures Sorted([w[0]] + rest) && multiset([w[0]] + rest) == multiset(w) + multiset{x}
  {
    assert w == [w[0]] + w[1..];
    forall k | 0 <= k < |rest| ensures !Less(rest[k], w[0]) {
      assert rest[k] in multiset(rest);
      if rest[k] != x {
        assert rest[k] in w[1..];
        var i :| 0 <= i < |w[1..]| && w[1..][i] == rest[k];
        assert w[i + 1] == rest[k];
      }
    }
  }

  function Sort(w: seq<string>): (r: seq<string>)
    ensures Sorted(r) && multiset(r) == multiset(w)
  {
    if w == [] then []
    else
      assert w == [w[0]] + w[1..];
      Insert(Sort(w[1..]), w[0])
  }

  /** Sorting leaves the members, and a repetition where there was one. */
  lemma {:induction false} SortMembers(w: seq<string>)
    ensures |Sort(w)| == |w| && forall x :: x in Sort(w) <==> x in w
    ensures Distinct(w) ==> Ascending(Sort(w))
  {
    var r := Sort(w);
    assert |multiset(r)| == |multiset(w)|;
    forall x ensures x in r <==> x in w {
      assert x in multiset(r) <==> x in multiset(w);
    }
    if Distinct(w) {
      DistinctPermutes(w, r);
      SortedAscends(r);
    }
  }
}
