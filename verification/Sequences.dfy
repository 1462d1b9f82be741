/** Lists without repetition, and lists as multisets. */
module Sequences {

  ghost predicate Distinct<T>(s: seq<T>) {
    forall i, j :: 0 <= i < j < |s| ==> s[i] != s[j]
  }

  lemma FirstOut<T>(s: seq<T>)
    requires s != []
    ensures multiset(s) == multiset(s[1..]) + multiset{s[0]}
  {
    assert s == [s[0]] + s[1..];
  }

  lemma OneOut<T>(s: seq<T>, i: nat)
    requires i < |s|
    ensures multiset(s) == multiset(s[..i] + s[i + 1..]) + multiset{s[i]}
  {
    assert s == s[..i] + [s[i]] + s[i + 1..];
  }

  lemma {:induction false} DistinctOnce<T>(s: seq<T>, x: T)
    requires Distinct(s)
    ensures multiset(s)[x] <= 1
  {
    if s != [] {
      FirstOut(s);
      DistinctOnce(s[1..], x);
    }
  }

  lemma OnceDistinct<T>(s: seq<T>)
    requires forall x :: x in s ==> multiset(s)[x] <= 1
    ensures Distinct(s)
  {
    forall i, j | 0 <= i < j < |s| ensures s[i] != s[j] {
      var rest := s[..i] + s[i + 1..];
      OneOut(s, i);
      assert rest[j - 1] == s[j] && s[j] in multiset(rest);
      assert s[i] in s && multiset(s)[s[i]] == multiset(rest)[s[i]] + 1;
    }
  }

  /** Being without repetition is a matter of the members, not of their order. */
  lemma DistinctPermutes<T>(a: seq<T>, b: seq<T>)
    requires multiset(a) == multiset(b) && Distinct(a)
    ensures Distinct(b)
  {
    forall x | x in b ensures multiset(b)[x] <= 1 { DistinctOnce(a, x); }
    OnceDistinct(b);
  }

  lemma SwapKeepsMultiset<T>(s: seq<T>, j: nat, k: nat)
    requires j < |s| && k < |s|
    ensures multiset(s[j := s[k]][k := s[j]]) == multiset(s)
  {
  }
}
