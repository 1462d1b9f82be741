/**
 Encrypted ID sets of the private set intersection, and the local work on them:
 encrypting, re-encrypting, filtering and re-arranging a sample file.

 A ciphertext is kept symbolic: the hash of an ID raised to some private keys.
 Raising is commutative, so the keys are a multiset.
 */
module PsiSets {
  import opened Wrappers
  import opened Sequences
  import Text

  type Party = string
  type Id = string
  type Row = seq<string>

  datatype Cipher = Cipher(id: Id, keys: multiset<Party>)

  /** Ciphertexts, each with an index into the list of the party they come from. */
  type EncSet = map<Cipher, int>

  function Lift(c: Cipher, key: Party): Cipher { Cipher(c.id, c.keys + multiset{key}) }

  predicate PointsAt(ids: seq<Id>, k: int, x: Id) { 0 <= k < |ids| && ids[k] == x }

  /** `s` holds the members of `ids` under exactly `keys`, with indexes that lead back to them. */
  ghost predicate Encrypts(s: EncSet, ids: seq<Id>, keys: multiset<Party>) {
    && (forall x :: x in ids ==> Cipher(x, keys) in s)
    && (forall c :: c in s ==> c.keys == keys && PointsAt(ids, s[c], c.id))
  }

  method EncryptSampleIdSet(ids: seq<Id>, key: Party) returns (s: EncSet)
    ensures Encrypts(s, ids, multiset{key})
    ensures forall c, k :: c in s && s[c] < k < |ids| ==> ids[k] != c.id
  {
    s := map[];
    for i := 0 to |ids|
      invariant Encrypts(s, ids[..i], multiset{key})
      invariant forall c, k :: c in s && s[c] < k < i ==> ids[k] != c.id
    {
      s := s[Cipher(ids[i], multiset{key}) := i];
    }
    assert ids[..|ids|] == ids;
  }

  /** `r` is `s` with one more key on every ciphertext and the indexes kept. */
  ghost predicate ReEncrypts(r: EncSet, s: EncSet, key: Party) {
    && (forall c :: c in s ==> Lift(c, key) in r && r[Lift(c, key)] == s[c])
    && (forall d :: d in r ==> exists c :: c in s && d == Lift(c, key))
  }

  method ReEncryptIdSet(s: EncSet, key: Party) returns (r: EncSet)
    ensures ReEncrypts(r, s, key)
  {
    r := map[];
    var todo := s.Keys;
    while todo != {}
      invariant todo <= s.Keys
      invariant forall c :: c in s && c !in todo ==> Lift(c, key) in r && r[Lift(c, key)] == s[c]
      invariant forall d :: d in r ==> exists c :: c in s && c !in todo && d == Lift(c, key)
    {
      var c :| c in todo;
      forall b | b in s && Lift(b, key) == Lift(c, key) ensures b == c {
        assert b.keys == b.keys + multiset{key} - multiset{key};
        assert c.keys == c.keys + multiset{key} - multiset{key};
      }
      r := r[Lift(c, key) := s[c]];
      todo := todo - {c};
    }
  }

  /** Whoever re-encrypts an honest set sends an honest set back. */
  lemma ReEncryptsHonestly(r: EncSet, s: EncSet, key: Party, ids: seq<Id>, keys: multiset<Party>)
    requires ReEncrypts(r, s, key) && Encrypts(s, ids, keys)
    ensures Encrypts(r, ids, keys + multiset{key})
  {
    forall x | x in ids ensures Cipher(x, keys + multiset{key}) in r {
      assert Lift(Cipher(x, keys), key) in r;
    }
  }

  /** What the pairwise intersection keeps: the local ID a common ciphertext points at. */
  ghost predicate Chosen(x: Id, ids: seq<Id>, local: EncSet, other: EncSet) {
    exists c :: c in local && c in other && PointsAt(ids, local[c], x)
  }

  ghost predicate InRange(ids: seq<Id>, local: EncSet, other: EncSet) {
    forall c :: c in local && c in other ==> 0 <= local[c] < |ids|
  }

  /** No two common ciphertexts lead to the same ID. */
  ghost predicate Separates(ids: seq<Id>, local: EncSet, other: EncSet)
    requires InRange(ids, local, other)
  {
    forall c, d :: c in local && c in other && d in local && d in other && c != d
                   ==> ids[local[c]] != ids[local[d]]
  }

  /** Ranging over a map visits the ciphertexts in any order. */
  method Intersect(ids: seq<Id>, local: EncSet, other: EncSet) returns (r: seq<Id>)
    requires InRange(ids, local, other)
    ensures forall x :: x in r <==> Chosen(x, ids, local, other)
    ensures Separates(ids, local, other) ==> Distinct(r)
  {
    r := [];
    ghost var origin: seq<Cipher> := [];
    var todo := local.Keys;
    while todo != {}
      invariant todo <= local.Keys
      invariant |origin| == |r| && Distinct(origin)
      invariant forall i :: 0 <= i < |r| ==> origin[i] in local && origin[i] in other && origin[i] !in todo
      invariant forall i :: 0 <= i < |r| ==> PointsAt(ids, local[origin[i]], r[i])
      invariant forall c :: c in local && c in other && c !in todo ==> c in origin
    {
      var c :| c in todo;
      todo := todo - {c};
      if c in other {
        r := r + [ids[local[c]]];
        origin := origin + [c];
      }
    }
    forall x | Chosen(x, ids, local, other) ensures x in r {
      var c :| c in local && c in other && PointsAt(ids, local[c], x);
      var i :| 0 <= i < |origin| && origin[i] == c;
      assert r[i] == x;
    }
  }

  /** Between honest sets under the same keys the filter is the intersection of the lists. */
  lemma HonestChoice(ids: seq<Id>, others: seq<Id>, local: EncSet, other: EncSet, keys: multiset<Party>)
    requires Encrypts(local, ids, keys) && Encrypts(other, others, keys)
    ensures InRange(ids, local, other) && Separates(ids, local, other)
    ensures forall x :: Chosen(x, ids, local, other) <==> x in ids && x in others
  {
    forall x ensures Chosen(x, ids, local, other) <==> x in ids && x in others {
      if x in ids && x in others {
        var c := Cipher(x, keys);
        assert c in local && c in other && PointsAt(ids, local[c], x);
      }
    }
  }

  /** `r` reads `a` at the ascending positions `at`, which are all whose ID is in `b`. */
  ghost predicate Picks(r: seq<Id>, a: seq<Id>, b: seq<Id>, at: seq<nat>) {
    && |at| == |r| && (forall k, l :: 0 <= k < l < |at| ==> at[k] < at[l])
    && (forall k :: 0 <= k < |at| ==> at[k] < |a| && r[k] == a[at[k]])
    && (forall i :: 0 <= i < |a| ==> (a[i] in b <==> i in at))
  }

  lemma PicksMore(r: seq<Id>, a: seq<Id>, b: seq<Id>, at: seq<nat>, x: Id)
    requires Picks(r, a, b, at)
    ensures x !in b ==> Picks(r, a + [x], b, at)
    ensures x in b ==> Picks(r + [x], a + [x], b, at + [|a|])
  {
    assert forall k :: 0 <= k < |at| ==> at[k] < |a|;
    assert |a| !in at;
  }

  lemma PicksMembers(r: seq<Id>, a: seq<Id>, b: seq<Id>, at: seq<nat>)
    requires Picks(r, a, b, at)
    ensures forall x :: x in r <==> x in a && x in b
    ensures Distinct(a) ==> Distinct(r)
  {
    forall x | x in a && x in b ensures x in r {
      var i :| 0 <= i < |a| && a[i] == x;
      var k :| 0 <= k < |at| && at[k] == i;
      assert r[k] == x;
    }
    forall x | x in r ensures x in a && x in b {
      var k :| 0 <= k < |r| && r[k] == x;
      assert at[k] in at;
    }
  }

  /** The members of `a` that are also in `b`, each as often and in the order as in `a`. */
  method GetIntersection(a: seq<Id>, b: seq<Id>) returns (r: seq<Id>)
    ensures exists at :: Picks(r, a, b, at)
    ensures forall x :: x in r <==> x in a && x in b
    ensures Distinct(a) ==> Distinct(r)
  {
    var compare: set<Id> := set v | v in b;
    r := [];
    ghost var at: seq<nat> := [];
    for i := 0 to |a|
      invariant Picks(r, a[..i], b, at)
    {
      PicksMore(r, a[..i], b, at, a[i]);
      assert a[..i + 1] == a[..i] + [a[i]];
      if a[i] in compare {
        r, at := r + [a[i]], at + [i];
      }
    }
    assert a[..|a|] == a;
    PicksMembers(r, a, b, at);
  }

  // ---------------------------------------------------------------- the sample file

  /** A csv file: every row as wide as the header. */
  predicate Table(rows: seq<Row>) {
    forall i :: 0 <= i < |rows| ==> |rows[i]| == |rows[0]|
  }

  /** The last column of that name. */
  function Column(header: Row, name: string): (r: Option<nat>)
    ensures r.Some? ==> r.value < |header| && header[r.value] == name && name !in header[r.value + 1..]
    ensures r.None? ==> name !in header
  {
    var n := |header|;
    if n == 0 then None
    else if header[n - 1] == name then Some(n - 1)
    else
      var r := Column(header[..n - 1], name);
      assert header == header[..n - 1] + [header[n - 1]];
      assert r.Some? ==> header[r.value + 1..] == header[..n - 1][r.value + 1..] + [header[n - 1]];
      r
  }

  predicate Readable(rows: seq<Row>, name: string) {
    rows != [] && Table(rows) && Column(rows[0], name).Some?
  }

  /** The IDs of the samples, in file order. */
  ghost function IdsIn(rows: seq<Row>, name: string): (ids: seq<Id>)
    requires Readable(rows, name)
    ensures |ids| == |rows| - 1
    ensures forall k :: 0 <= k < |ids| ==> ids[k] == rows[k + 1][Column(rows[0], name).value]
  {
    if |rows| == 1 then []
    else IdsIn(rows[..|rows| - 1], name) + [rows[|rows| - 1][Column(rows[0], name).value]]
  }

  datatype FileError = EmptyFile | EmptyIds | NoIdColumn

  method RetrieveIds(rows: seq<Row>, name: string) returns (r: Result<seq<Id>, FileError>)
    requires Table(rows)
    ensures r.Success? <==> Readable(rows, name)
    ensures r.Success? ==> r.value == IdsIn(rows, name)
    ensures r == Failure(EmptyFile) <==> rows == []
    ensures r == Failure(NoIdColumn) <==> rows != [] && name !in rows[0]
  {
    if rows == [] { return Failure(EmptyFile); }
    var col := Column(rows[0], name);
    if col.None? { return Failure(NoIdColumn); }
    var ids := [];
    for row := 1 to |rows|
      invariant |ids| == row - 1
      invariant forall k :: 0 <= k < |ids| ==> ids[k] == rows[k + 1][col.value]
    {
      ids := ids + [rows[row][col.value]];
    }
    return Success(ids);
  }

  /** `out` is the row less that column: the cells before it as they are, those behind it one further left. */
  ghost predicate Drops(out: Row, row: Row, col: nat)
    requires col < |row|
  {
    && |out| == |row| - 1
    && (forall j :: 0 <= j < col ==> out[j] == row[j])
    && (forall j :: col <= j < |out| ==> out[j] == row[j + 1])
  }

  function Without(row: Row, col: nat): (out: Row)
    requires col < |row|
    ensures Drops(out, row, col)
  {
    row[..col] + row[col + 1..]
  }

  /** Of the first `n` rows, row `i` is the last sample with that ID. */
  predicate LastWithin(rows: seq<Row>, n: nat, col: nat, id: Id, i: nat)
    requires n <= |rows| && forall k :: 0 <= k < n ==> col < |rows[k]|
  {
    1 <= i < n && rows[i][col] == id && forall j :: i < j < n ==> rows[j][col] != id
  }

  predicate LastSample(rows: seq<Row>, name: string, id: Id, i: nat)
    requires Readable(rows, name)
  {
    LastWithin(rows, |rows|, Column(rows[0], name).value, id, i)
  }

  /** `out` lists a sample for each of `ids`, in that order, without the ID column. */
  ghost predicate Arranged(out: seq<Row>, rows: seq<Row>, name: string, ids: seq<Id>)
    requires Readable(rows, name)
  {
    var col := Column(rows[0], name).value;
    && |out| == |ids| + 1
    && Drops(out[0], rows[0], col)
    && forall k: nat, i: nat :: k < |ids| && ids[k] !in ids[k + 1..] && LastSample(rows, name, ids[k], i)
                                ==> Drops(out[k + 1], rows[i], col)
  }

  /** An ID column that is the only one of its name is gone from the header, and with it its cells. */
  lemma ColumnGone(out: seq<Row>, rows: seq<Row>, name: string, ids: seq<Id>)
    requires Readable(rows, name) && Arranged(out, rows, name, ids)
    ensures |out[0]| == |rows[0]| - 1
    ensures (forall i, j :: 0 <= i < j < |rows[0]| ==> rows[0][i] != name || rows[0][j] != name) ==> name !in out[0]
    ensures forall h :: h in out[0] ==> h in rows[0]
    ensures forall h :: h in rows[0] ==> h in out[0] || h == name
  {
    var header, col := rows[0], Column(rows[0], name).value;
    forall h | h in out[0] ensures h in header {
      var j :| 0 <= j < |out[0]| && out[0][j] == h;
      assert header[if j < col then j else j + 1] == h;
    }
    forall h | h in header ensures h in out[0] || h == name {
      var j :| 0 <= j < |header| && header[j] == h;
      if j < col { assert out[0][j] == h; } else if j > col { assert out[0][j - 1] == h; }
    }
    if name in out[0] {
      var j :| 0 <= j < |out[0]| && out[0][j] == name;
      assert header[if j < col then j else j + 1] == name && header[col] == name;
    }
  }

  /** Where each sorted ID stands; of equal ones the last. */
  method ReorderIds(sorted: seq<Id>) returns (at: map<Id, nat>)
    ensures Positions(at, sorted)
  {
    at := map[];
    for i := 0 to |sorted|
      invariant forall x :: x in at <==> x in sorted[..i]
      invariant forall x :: x in at ==> at[x] < i && sorted[at[x]] == x && x !in sorted[at[x] + 1..i]
    {
      ghost var was := at;
      at := at[sorted[i] := i];
      assert sorted[..i + 1] == sorted[..i] + [sorted[i]];
      forall x | x in at && x != sorted[i] ensures x !in sorted[at[x] + 1..i + 1] {
        assert sorted[at[x] + 1..i + 1] == sorted[was[x] + 1..i] + [sorted[i]];
      }
    }
    assert sorted[..|sorted|] == sorted;
    forall x | x in at ensures x !in sorted[at[x] + 1..] {
      assert sorted[at[x] + 1..] == sorted[at[x] + 1..|sorted|];
    }
  }

  datatype Aligned = Aligned(rows: seq<Row>, ids: seq<Id>)

  /** Sorts the IDs in place, hence returns them, and lists the samples in that order. */
  method RearrangeFile(rows: seq<Row>, name: string, ids: seq<Id>) returns (r: Result<Aligned, FileError>)
    requires Table(rows)
    ensures r.Success? <==> Readable(rows, name) && ids != []
    ensures r.Success? ==> r.value.ids == Text.Sort(ids) && Arranged(r.value.rows, rows, name, r.value.ids)
    ensures r == Failure(EmptyFile) <==> rows == []
    ensures r == Failure(EmptyIds) <==> rows != [] && ids == []
    ensures r == Failure(NoIdColumn) <==> rows != [] && ids != [] && name !in rows[0]
  {
    if rows == [] { return Failure(EmptyFile); }
    if ids == [] { return Failure(EmptyIds); }
    var sorted := Text.Sort(ids);
    Text.SortMembers(ids);
    var at := ReorderIds(sorted);
    var column := Column(rows[0], name);
    if column.None? { return Failure(NoIdColumn); }
    var col := column.value;
    var out := new Row[|ids| + 1](_ => []);
    out[0] := Without(rows[0], col);
    for row := 1 to |rows|
      invariant Drops(out[0], rows[0], col)
      invariant Filed(out[..], rows, row, col, at)
    {
      var id := rows[row][col];
      ghost var was := out[..];
      if id in at {
        out[at[id] + 1] := Without(rows[row], col);
      }
      FileOne(was, out[..], rows, row, col, sorted, at);
    }
    ArrangedBy(out[..], rows, name, sorted, at);
    return Success(Aligned(out[..], sorted));
  }

  /** Among the first `n` rows, the last sample of every listed ID is in its place. */
  ghost predicate Filed(out: seq<Row>, rows: seq<Row>, n: nat, col: nat, at: map<Id, nat>)
    requires n <= |rows| && forall k :: 0 <= k < n ==> col < |rows[k]|
    requires forall x :: x in at ==> at[x] + 1 < |out|
  {
    forall x, i: nat :: x in at && LastWithin(rows, n, col, x, i) ==> Drops(out[at[x] + 1], rows[i], col)
  }

  /** Where each ID stands in the sorted list. */
  ghost predicate Positions(at: map<Id, nat>, sorted: seq<Id>) {
    && (forall x :: x in at <==> x in sorted)
    && (forall x :: x in at ==> at[x] < |sorted| && sorted[at[x]] == x && x !in sorted[at[x] + 1..])
  }

  lemma FileOne(was: seq<Row>, out: seq<Row>, rows: seq<Row>, row: nat, col: nat, sorted: seq<Id>, at: map<Id, nat>)
    requires row < |rows| && forall k :: 0 <= k <= row ==> col < |rows[k]|
    requires |was| == |sorted| + 1 && Positions(at, sorted) && row >= 1
    requires Filed(was, rows, row, col, at)
    requires var id := rows[row][col];
             out == if id in at then was[at[id] + 1 := Without(rows[row], col)] else was
    ensures Filed(out, rows, row + 1, col, at)
  {
    forall x, i: nat | x in at && LastWithin(rows, row + 1, col, x, i)
      ensures Drops(out[at[x] + 1], rows[i], col)
    {
      var id := rows[row][col];
      if i < row {
        assert x != id;
        assert LastWithin(rows, row, col, x, i);
        assert id in at ==> at[id] != at[x];
      }
    }
  }

  lemma {:induction false} ArrangedBy(out: seq<Row>, rows: seq<Row>, name: string, ids: seq<Id>, at: map<Id, nat>)
    requires Readable(rows, name) && |out| == |ids| + 1 && Positions(at, ids)
    requires Drops(out[0], rows[0], Column(rows[0], name).value)
    requires Filed(out, rows, |rows|, Column(rows[0], name).value, at)
    ensures Arranged(out, rows, name, ids)
  {
    var col := Column(rows[0], name).value;
    forall k: nat, i: nat | k < |ids| && ids[k] !in ids[k + 1..] && LastSample(rows, name, ids[k], i)
      ensures Drops(out[k + 1], rows[i], col)
    {
      LastPlace(ids, at, k);
    }
  }

  lemma LastPlace(ids: seq<Id>, at: map<Id, nat>, k: nat)
    requires Positions(at, ids) && k < |ids| && ids[k] !in ids[k + 1..]
    ensures ids[k] in at && at[ids[k]] == k
  {
    var i := at[ids[k]];
    assert ids == ids[..i + 1] + ids[i + 1..] && ids == ids[..k + 1] + ids[k + 1..];
  }

  /** Every ID of the file has a last sample. */
  lemma {:induction false} SampleExists(rows: seq<Row>, name: string, id: Id)
    requires Readable(rows, name) && id in IdsIn(rows, name)
    ensures exists i :: LastSample(rows, name, id, i)
  {
    var col := Column(rows[0], name).value;
    var k :| 0 <= k < |rows| - 1 && IdsIn(rows, name)[k] == id;
    var i := k + 1;
    while !(forall j :: i < j < |rows| ==> rows[j][col] != id)
      invariant 1 <= i < |rows| && rows[i][col] == id
      decreases |rows| - i
    {
      var j :| i < j < |rows| && rows[j][col] == id;
      i := j;
    }
    assert LastSample(rows, name, id, i);
  }
}
