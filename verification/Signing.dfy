/** The text of a request that is signed: its fields in canonical order. */
module Signing {
  import opened Wrappers
  import opened Sequences
  import Text

  /** A request as JSON makes a map of it: field names, and values as printed, or nil. */
  type Fields = map<string, Option<string>>

  datatype Field = Field(key: string, value: string)

  const SIGNATURE_NAME := "signature"

  predicate Kept(m: Fields, f: Field) {
    f.key in m && f.key != SIGNATURE_NAME && m[f.key] == Some(f.value)
  }

  /** Both requests have the same fields, nil ones and the signature aside. */
  ghost predicate SameFields(m: Fields, n: Fields) { forall f :: Kept(m, f) <==> Kept(n, f) }

  /** The kept fields in the order of `keys`. */
  function Chosen(m: Fields, keys: seq<string>): (fs: seq<Field>)
    ensures forall f :: f in fs <==> f.key in keys && Kept(m, f)
  {
    if keys == [] then []
    else
      var k, rest := keys[|keys| - 1], keys[..|keys| - 1];
      assert forall l :: l in keys <==> l in rest || l == k;
      Chosen(m, rest) + if k in m && k != SIGNATURE_NAME && m[k].Some? then [Field(k, m[k].value)] else []
  }

  function Entry(f: Field): string { f.key + "=" + f.value + "&" }

  function Entries(fs: seq<Field>): string {
    if fs == [] then "" else Entry(fs[0]) + Entries(fs[1..])
  }

  lemma {:induction false} EntriesSnoc(fs: seq<Field>, f: Field)
    ensures Entries(fs + [f]) == Entries(fs) + Entry(f)
  {
    if fs == [] {
      assert (fs + [f])[1..] == [];
    } else {
      EntriesSnoc(fs[1..], f);
      assert (fs + [f])[1..] == fs[1..] + [f];
    }
  }

  function TrimRight(s: string): string {
    if s != [] && s[|s| - 1] == '&' then TrimRight(s[..|s| - 1]) else s
  }

  /** The specification: the kept fields in the ascending order of their keys. */
  ghost predicate IsMessage(m: Fields, msg: string) {
    exists keys :: Text.Sorts(keys, m.Keys) && msg == TrimRight(Entries(Chosen(m, keys)))
  }

  /** Ranging over the map collects the keys in any order. */
  method CollectKeys(m: Fields) returns (keys: seq<string>)
    ensures Distinct(keys) && forall k :: k in keys <==> k in m
  {
    keys := [];
    var todo := m.Keys;
    while todo != {}
      invariant todo <= m.Keys && Distinct(keys)
      invariant forall k :: k in keys <==> k in m && k !in todo
      decreases todo
    {
      var k :| k in todo;
      keys := keys + [k];
      todo := todo - {k};
    }
  }

  method Concatenate(m: Fields, keys: seq<string>) returns (sigMes: string)
    requires forall k :: k in keys ==> k in m
    ensures sigMes == Entries(Chosen(m, keys))
  {
    sigMes := "";
    for i := 0 to |keys|
      invariant sigMes == Entries(Chosen(m, keys[..i]))
    {
      var k := keys[i];
      OneKeyMore(m, keys, i);
      if k == SIGNATURE_NAME || m[k].None? { continue; }
      sigMes := sigMes + Entry(Field(k, m[k].value));
    }
    assert keys[..|keys|] == keys;
  }

  method GetSigMessage(m: Fields) returns (msg: string)
    ensures IsMessage(m, msg)
  {
    var collected := CollectKeys(m);
    Text.SortMembers(collected);
    var keys := Text.Sort(collected);
    var sigMes := Concatenate(m, keys);
    assert Text.Sorts(keys, m.Keys);
    return TrimRight(sigMes);
  }

  lemma {:induction false} OneKeyMore(m: Fields, keys: seq<string>, i: nat)
    requires i < |keys| && keys[i] in m
    ensures Entries(Chosen(m, keys[..i + 1])) ==
            if keys[i] != SIGNATURE_NAME && m[keys[i]].Some?
            then Entries(Chosen(m, keys[..i])) + Entry(Field(keys[i], m[keys[i]].value))
            else Entries(Chosen(m, keys[..i]))
  {
    var k, fs := keys[i], Chosen(m, keys[..i]);
    assert keys[..i + 1][..i] == keys[..i] && keys[..i + 1][i] == k;
    if k != SIGNATURE_NAME && m[k].Some? {
      EntriesSnoc(fs, Field(k, m[k].value));
    } else {
      assert fs + [] == fs;
    }
  }

  // ---------------------------------------------------------------- what the message depends on

  ghost predicate ByKey(fs: seq<Field>) {
    forall i, j :: 0 <= i < j < |fs| ==> Text.Less(fs[i].key, fs[j].key)
  }

  lemma {:induction false} ChosenByKey(m: Fields, keys: seq<string>)
    requires Text.Ascending(keys)
    ensures ByKey(Chosen(m, keys))
  {
    if keys != [] {
      var n := |keys| - 1;
      var fs := Chosen(m, keys[..n]);
      ChosenByKey(m, keys[..n]);
      forall i | 0 <= i < |fs| ensures Text.Less(fs[i].key, keys[n]) {
        assert fs[i] in fs;
        var j :| 0 <= j < n && keys[..n][j] == fs[i].key;
        assert Text.Less(keys[j], keys[n]);
      }
    }
  }

  function Keys(fs: seq<Field>): (r: seq<string>)
    ensures |r| == |fs| && forall i :: 0 <= i < |fs| ==> r[i] == fs[i].key
  {
    if fs == [] then [] else [fs[0].key] + Keys(fs[1..])
  }

  /** Fields in order are determined by which they are. */
  lemma ByKeyUnique(a: seq<Field>, b: seq<Field>)
    requires ByKey(a) && ByKey(b) && forall f :: f in a <==> f in b
    ensures a == b
  {
    var s := set f | f in a :: f.key;
    SortsKeys(a, a, s);
    SortsKeys(b, a, s);
    Text.SortsUnique(Keys(a), Keys(b), s);
    forall i | 0 <= i < |a| ensures a[i] == b[i] {
      assert a[i] in b;
      var j :| 0 <= j < |b| && b[j] == a[i];
      assert Keys(a)[i] == Keys(b)[j] == Keys(a)[j];
      Text.LessTotal(a[i].key, a[i].key);
    }
  }

  lemma {:induction false} SortsKeys(a: seq<Field>, b: seq<Field>, s: set<string>)
    requires ByKey(a) && (forall f :: f in a <==> f in b) && s == set f | f in b :: f.key
    ensures Text.Sorts(Keys(a), s)
  {
    forall k ensures k in Keys(a) <==> k in s {
      if k in Keys(a) {
        var i :| 0 <= i < |a| && Keys(a)[i] == k;
        assert a[i] in a;
      }
      if k in s {
        var f :| f in b && f.key == k;
        assert f in a;
        var i :| 0 <= i < |a| && a[i] == f;
        assert Keys(a)[i] == k;
      }
    }
  }

  lemma {:induction false} ChosenAll(m: Fields, keys: seq<string>)
    requires Text.Sorts(keys, m.Keys)
    ensures ByKey(Chosen(m, keys)) && forall f :: f in Chosen(m, keys) <==> Kept(m, f)
  {
    ChosenByKey(m, keys);
  }

  /** The message is a function of the kept fields: neither the order in which fields are met
      nor nil fields nor the signature itself make a difference. */
  lemma OrderAndSignatureDoNotMatter(m: Fields, n: Fields, a: string, b: string)
    requires SameFields(m, n) && IsMessage(m, a) && IsMessage(n, b)
    ensures a == b
  {
    var v :| Text.Sorts(v, m.Keys) && a == TrimRight(Entries(Chosen(m, v)));
    var w :| Text.Sorts(w, n.Keys) && b == TrimRight(Entries(Chosen(n, w)));
    ChosenAll(m, v);
    ChosenAll(n, w);
    ByKeyUnique(Chosen(m, v), Chosen(n, w));
  }

  // ---------------------------------------------------------------- what can be read back

  predicate PlainField(f: Field) { '=' !in f.key && '&' !in f.value }

  /** No kept value has an '&', and no kept key an '&' or a '='. */
  ghost predicate Plain(m: Fields) { forall f :: Kept(m, f) ==> PlainField(f) }

  lemma NotShorter(a: string, b: string, c: char, x: string, y: string)
    requires c !in b && a + [c] + x == b + [c] + y
    ensures |b| <= |a|
  {
    var s := a + [c] + x;
    assert s[|a|] == c;
    assert forall i :: 0 <= i < |b| ==> s[i] == b[i] && b[i] in b;
  }

  /** What comes before the first `c` is read back. */
  lemma CutOnce(a: string, b: string, c: char, x: string, y: string)
    requires c !in a && c !in b && a + [c] + x == b + [c] + y
    ensures a == b && x == y
  {
    NotShorter(a, b, c, x, y);
    NotShorter(b, a, c, y, x);
    var s := a + [c] + x;
    assert a == s[..|a|] == b && x == s[|a| + 1..] == y;
  }

  /** Plain fields are read back from their entries. */
  lemma {:induction false} EntriesReadBack(a: seq<Field>, b: seq<Field>)
    requires forall f :: f in a || f in b ==> PlainField(f)
    requires Entries(a) == Entries(b)
    ensures a == b
  {
    if a != [] && b != [] {
      var f, g := a[0], b[0];
      assert f in a && g in b;
      var x, y := Entries(a[1..]), Entries(b[1..]);
      assert Entries(a) == f.key + ['='] + (f.value + ['&'] + x);
      assert Entries(b) == g.key + ['='] + (g.value + ['&'] + y);
      CutOnce(f.key, g.key, '=', f.value + ['&'] + x, g.value + ['&'] + y);
      CutOnce(f.value, g.value, '&', x, y);
      EntriesReadBack(a[1..], b[1..]);
    }
  }

  /** Of plain fields only the last separator is trimmed. */
  lemma {:induction false} TrimmedOnce(fs: seq<Field>)
    requires forall f :: f in fs ==> PlainField(f)
    ensures var s := Entries(fs);
            if fs == [] then TrimRight(s) == "" else s == TrimRight(s) + "&" && TrimRight(s) != ""
  {
    if fs != [] {
      var init, f := fs[..|fs| - 1], fs[|fs| - 1];
      EntriesSnoc(init, f);
      assert fs == init + [f];
      var body := Entries(init) + f.key + "=" + f.value;
      assert Entries(fs) == body + "&" && (body + "&")[..|body|] == body;
      assert f in fs;
      assert f.value != [] ==> f.value[|f.value| - 1] in f.value;
      assert body[|body| - 1] == if f.value != [] then f.value[|f.value| - 1] else '=';
    }
  }

  /** The message determines the kept fields of plain requests. */
  lemma MessageDeterminesFields(m: Fields, n: Fields, msg: string)
    requires Plain(m) && Plain(n) && IsMessage(m, msg) && IsMessage(n, msg)
    ensures SameFields(m, n)
  {
    var v :| Text.Sorts(v, m.Keys) && msg == TrimRight(Entries(Chosen(m, v)));
    var w :| Text.Sorts(w, n.Keys) && msg == TrimRight(Entries(Chosen(n, w)));
    ChosenAll(m, v);
    ChosenAll(n, w);
    TrimmedOnce(Chosen(m, v));
    TrimmedOnce(Chosen(n, w));
    EntriesReadBack(Chosen(m, v), Chosen(n, w));
  }

  // ---------------------------------------------------------------- what cannot

  ghost predicate KeepsNothing(m: Fields) { forall f :: !Kept(m, f) }

  /** The request with an '&' more in one value. */
  function Appended(m: Fields, f: Field): Fields { m[f.key := Some(f.value + "&")] }

  lemma {:induction false} AppendedFields(m: Fields, keys: seq<string>, init: seq<Field>, f: Field)
    requires Text.Sorts(keys, m.Keys) && Chosen(m, keys) == init + [f]
    ensures Chosen(Appended(m, f), keys) == init + [Field(f.key, f.value + "&")]
  {
    var n, g, fs := Appended(m, f), Field(f.key, f.value + "&"), init + [f];
    ChosenAll(m, keys);
    assert f in fs && Kept(m, f);
    assert n.Keys == m.Keys;
    ChosenAll(n, keys);
    assert ByKey(init + [g]) by {
      assert forall i :: 0 <= i < |fs| ==> (init + [g])[i].key == fs[i].key;
    }
    forall h ensures h in Chosen(n, keys) <==> h in init + [g] {
      assert h in init ==> h in fs;
      if h in init {
        var i :| 0 <= i < |init| && init[i] == h;
        assert Text.Less(fs[i].key, fs[|init|].key);
        Text.LessTotal(f.key, f.key);
      }
      if Kept(n, h) && h.key != f.key { assert Kept(m, h) && h in fs; }
    }
    ByKeyUnique(Chosen(n, keys), init + [g]);
  }

  lemma {:induction false} TrimmedMore(s: string)
    ensures TrimRight(s + "&") == TrimRight(s)
  {
    assert (s + "&")[..|s|] == s;
  }

  lemma {:induction false} AppendedEntries(init: seq<Field>, f: Field)
    ensures TrimRight(Entries(init + [Field(f.key, f.value + "&")])) == TrimRight(Entries(init + [f]))
  {
    var g := Field(f.key, f.value + "&");
    EntriesSnoc(init, f);
    EntriesSnoc(init, g);
    var e, s := Entry(f), Entries(init);
    assert Entry(g) == e + "&";
    assert s + (e + "&") == s + e + "&";
    TrimmedMore(s + e);
  }

  /** The last of the kept fields, by their names. */
  lemma LastKept(m: Fields, keys: seq<string>) returns (init: seq<Field>, f: Field)
    requires Text.Sorts(keys, m.Keys) && !KeepsNothing(m)
    ensures Chosen(m, keys) == init + [f] && Kept(m, f)
  {
    ChosenAll(m, keys);
    var fs := Chosen(m, keys);
    var some :| Kept(m, some);
    assert some in fs;
    init, f := fs[..|fs| - 1], fs[|fs| - 1];
    assert f in fs;
  }

  /** Every request that keeps a field at all has a partner with the same message: the one whose last
      value has an '&' more. */
  lemma ValueConfuses(m: Fields, msg: string) returns (n: Fields)
    requires IsMessage(m, msg) && !KeepsNothing(m)
    ensures IsMessage(n, msg) && !SameFields(m, n)
  {
    var keys :| Text.Sorts(keys, m.Keys) && msg == TrimRight(Entries(Chosen(m, keys)));
    var init, f := LastKept(m, keys);
    n := Appended(m, f);
    AppendedFields(m, keys, init, f);
    AppendedEntries(init, f);
    assert Text.Sorts(keys, n.Keys) by { assert n.Keys == m.Keys; }
    assert Kept(m, f) && !Kept(n, f);
  }

  lemma {:induction false} TrimKeeps(s: string, i: nat)
    requires i < |s| && s[i] != '&'
    ensures TrimRight(s) != ""
  {
    if s[|s| - 1] == '&' { TrimKeeps(s[..|s| - 1], i); }
  }

  lemma NothingIsEmpty(m: Fields, msg: string)
    requires IsMessage(m, msg)
    ensures msg == "" <==> KeepsNothing(m)
  {
    var keys :| Text.Sorts(keys, m.Keys) && msg == TrimRight(Entries(Chosen(m, keys)));
    ChosenAll(m, keys);
    var fs := Chosen(m, keys);
    if fs != [] {
      assert fs[0] in fs;
      assert Entries(fs)[|fs[0].key|] == '=';
      TrimKeeps(Entries(fs), |fs[0].key|);
    }
  }

  /** Among all requests a message determines the kept fields exactly if there are none. So it is the
      restriction to plain requests that makes messages unambiguous. */
  lemma DeterminedExactly(m: Fields, msg: string)
    requires IsMessage(m, msg)
    ensures (forall n :: IsMessage(n, msg) ==> SameFields(m, n)) <==> KeepsNothing(m)
  {
    NothingIsEmpty(m, msg);
    if KeepsNothing(m) {
      forall n | IsMessage(n, msg) ensures SameFields(m, n) { NothingIsEmpty(n, msg); }
    } else {
      var n := ValueConfuses(m, msg);
    }
  }

  /** With a separator in a key, too, another request has the same message. */
  lemma KeyConfuses(m: Fields, n: Fields, a: string, b: string, c: string)
    requires m == map[a + "=" + b := Some(c)] && n == map[a := Some(b + "=" + c)]
    requires a != SIGNATURE_NAME && a + "=" + b != SIGNATURE_NAME && c != [] && c[|c| - 1] != '&'
    ensures IsMessage(m, a + "=" + b + "=" + c) && IsMessage(n, a + "=" + b + "=" + c) && !SameFields(m, n)
  {
    OneField(m, Field(a + "=" + b, c));
    OneField(n, Field(a, b + "=" + c));
    assert a + "=" + (b + "=" + c) == a + "=" + b + "=" + c;
    assert |a + "=" + b| > |a|;
    assert Kept(n, Field(a, b + "=" + c)) && !Kept(m, Field(a, b + "=" + c));
  }

  lemma OneField(m: Fields, f: Field)
    requires m == map[f.key := Some(f.value)] && f.key != SIGNATURE_NAME
    requires f.value != [] && f.value[|f.value| - 1] != '&'
    ensures IsMessage(m, f.key + "=" + f.value)
  {
    assert Text.Sorts([f.key], m.Keys);
    assert [f.key][..0] == [] && Chosen(m, []) == [];
    assert Chosen(m, [f.key]) == [f] && [f][1..] == [];
    var s := f.key + "=" + f.value;
    assert (s + "&")[..|s|] == s && Entries([f]) == s + "&";
    assert s[|s| - 1] == f.value[|f.value| - 1];
    assert TrimRight(s) == s && TrimRight(s + "&") == TrimRight(s);
  }
}
