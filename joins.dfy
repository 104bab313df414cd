/** `left.merge(right, on='sample_id', how='outer')` and the fold of such
    merges that grows the registry table. Output rows are built left rows
    first, then right-only rows; pandas' own row order is not modelled, so
    every property below speaks of membership, key sets and counts. */
module Joins {
  import opened Outcomes
  import opened Tables

  // ---------------------------------------------------------------------------
  // Keys
  // ---------------------------------------------------------------------------

  predicate HasKey(rows: seq<Row>) {
    forall i :: 0 <= i < |rows| ==> Key in rows[i]
  }

  /** The `sample_id` values occurring in `rows`. */
  function KeysOf(rows: seq<Row>): set<Cell> {
    if rows == [] then {}
    else (if Key in rows[0] then {rows[0][Key]} else {}) + KeysOf(rows[1..])
  }

  /** No two rows share a `sample_id`. */
  ghost predicate UniqueKeys(rows: seq<Row>) {
    HasKey(rows) && forall i, j :: 0 <= i < j < |rows| ==> rows[i][Key] != rows[j][Key]
  }

  lemma {:induction false} KeysOfAppend(a: seq<Row>, b: seq<Row>)
    ensures KeysOf(a + b) == KeysOf(a) + KeysOf(b)
  {
    if a == [] {
      assert a + b == b;
    } else {
      assert (a + b)[1..] == a[1..] + b;
      KeysOfAppend(a[1..], b);
    }
  }

  lemma {:induction false} KeysOfHas(rows: seq<Row>, i: int)
    requires 0 <= i < |rows| && Key in rows[i]
    ensures rows[i][Key] in KeysOf(rows)
  {
    if i > 0 {
      KeysOfHas(rows[1..], i - 1);
    }
  }

  lemma {:induction false} KeysOfWitness(rows: seq<Row>, k: Cell) returns (i: int)
    requires k in KeysOf(rows)
    ensures 0 <= i < |rows| && Key in rows[i] && rows[i][Key] == k
  {
    if Key in rows[0] && rows[0][Key] == k {
      i := 0;
    } else {
      i := KeysOfWitness(rows[1..], k);
      i := i + 1;
    }
  }

  /** A key no row carries is not among the keys. */
  lemma {:induction false} KeysOfLacks(rows: seq<Row>, k: Cell)
    requires HasKey(rows) && forall i :: 0 <= i < |rows| ==> rows[i][Key] != k
    ensures k !in KeysOf(rows)
  {
    if rows != [] {
      KeysOfLacks(rows[1..], k);
    }
  }

  /** With unique keys, the first row's key occurs in no later row. */
  lemma FirstKeyFresh(rows: seq<Row>)
    requires UniqueKeys(rows) && rows != []
    ensures UniqueKeys(rows[1..])
    ensures rows[0][Key] !in KeysOf(rows[1..])
  {
    var rest := rows[1..];
    assert forall i :: 0 <= i < |rest| ==> rest[i] == rows[i + 1];
    KeysOfLacks(rest, rows[0][Key]);
  }

  /** Distinct keys: one key per row. */
  lemma {:induction false} KeysOfUniqueSize(rows: seq<Row>)
    requires UniqueKeys(rows)
    ensures |KeysOf(rows)| == |rows|
  {
    if rows != [] {
      FirstKeyFresh(rows);
      KeysOfUniqueSize(rows[1..]);
    }
  }

  // ---------------------------------------------------------------------------
  // The outer join
  // ---------------------------------------------------------------------------

  /** pandas merges these two tables without suffixing: both carry the key and
      they share no other label. */
  ghost predicate JoinReady(l: Table, r: Table) {
    && WellFormed(l) && WellFormed(r)
    && Key in l.names && Key in r.names
    && forall c :: c in r.names && c != Key ==> c !in l.names
  }

  /** A row of NaN over `cols`. */
  function Pad(cols: set<string>): (p: Row)
    ensures p.Keys == cols
  {
    map c | c in cols :: Missing
  }

  /** `o` holds every cell of `b` unchanged. */
  ghost predicate Extends(o: Row, b: Row) {
    b.Keys <= o.Keys && forall c :: c in b ==> o[c] == b[c]
  }

  lemma ExtendsTransitive(a: Row, b: Row, c: Row)
    requires Extends(a, b) && Extends(b, c)
    ensures Extends(a, c)
  {
  }

  /** The rows of `rs` whose key is `k`, in order. */
  function Matching(rs: seq<Row>, k: Cell): (ms: seq<Row>)
    ensures |ms| <= |rs|
    ensures forall x :: x in ms <==> x in rs && CellIs(x, Key, k)
  {
    if rs == [] then []
    else (if CellIs(rs[0], Key, k) then [rs[0]] else []) + Matching(rs[1..], k)
  }

  /** No row has key `k`: nothing matches. */
  lemma {:induction false} MatchingNone(rs: seq<Row>, k: Cell)
    requires k !in KeysOf(rs)
    ensures Matching(rs, k) == []
  {
    if rs != [] {
      MatchingNone(rs[1..], k);
    }
  }

  /** The output rows of one left row: one per right row with its key, each
      the left cells plus that row's non-key cells; or, with no such right
      row, the left cells padded with NaN. */
  function Expand(l: Row, rs: seq<Row>, rightCols: set<string>): (out: seq<Row>)
    requires Key in l
    ensures |out| >= 1
  {
    var ms := Matching(rs, l[Key]);
    if ms == [] then [l + Pad(rightCols)]
    else seq(|ms|, j requires 0 <= j < |ms| => l + (ms[j] - {Key}))
  }

  function LeftPart(ls: seq<Row>, rs: seq<Row>, rightCols: set<string>): seq<Row>
    requires HasKey(ls)
  {
    if ls == [] then [] else Expand(ls[0], rs, rightCols) + LeftPart(ls[1..], rs, rightCols)
  }

  /** A right row no left row matches: its cells, NaN for every left column
      but the key. */
  function Orphan(x: Row, leftCols: set<string>): Row
    requires Key in x
  {
    Pad(leftCols)[Key := x[Key]] + (x - {Key})
  }

  function RightPart(rs: seq<Row>, leftKeys: set<Cell>, leftCols: set<string>): seq<Row>
    requires HasKey(rs)
  {
    if rs == [] then []
    else (if rs[0][Key] in leftKeys then [] else [Orphan(rs[0], leftCols)])
         + RightPart(rs[1..], leftKeys, leftCols)
  }

  ghost predicate AllHave(rows: seq<Row>, cols: set<string>) {
    forall x :: x in rows ==> x.Keys == cols
  }

  lemma {:induction false} LeftPartShape(ls: seq<Row>, rs: seq<Row>, lc: set<string>, rc: set<string>)
    requires HasKey(ls) && AllHave(ls, lc) && AllHave(rs, rc) && Key in rc
    ensures AllHave(LeftPart(ls, rs, rc - {Key}), lc + (rc - {Key}))
  {
    if ls != [] {
      LeftPartShape(ls[1..], rs, lc, rc);
      assert AllHave(Expand(ls[0], rs, rc - {Key}), lc + (rc - {Key}));
    }
  }

  lemma {:induction false} RightPartShape(rs: seq<Row>, lk: set<Cell>, lc: set<string>, rc: set<string>)
    requires HasKey(rs) && AllHave(rs, rc) && Key in lc
    ensures AllHave(RightPart(rs, lk, lc), lc + (rc - {Key}))
  {
    if rs != [] {
      RightPartShape(rs[1..], lk, lc, rc);
    }
  }

  lemma DistinctAppend(a: seq<string>, b: seq<string>)
    requires Distinct(a) && Distinct(b) && NameSet(a) !! NameSet(b)
    ensures Distinct(a + b) && NameSet(a + b) == NameSet(a) + NameSet(b)
  {
    forall i, j | 0 <= i < j < |a + b|
      ensures (a + b)[i] != (a + b)[j]
    {
      if i < |a| && j >= |a| {
        assert (a + b)[i] in NameSet(a) && (a + b)[j] in NameSet(b);
      }
    }
  }

  lemma WellFormedRows(t: Table)
    requires WellFormed(t)
    ensures HasKey(t.rows) || Key !in t.names
    ensures AllHave(t.rows, NameSet(t.names))
  {
  }

  /** The outer join of two mergeable tables. Its columns are the left ones
      followed by the right ones without the key, and every row has exactly
      those columns. */
  function Join(l: Table, r: Table): (j: Table)
    requires JoinReady(l, r)
    ensures WellFormed(j)
    ensures j.names == l.names + Without(r.names, Key)
    ensures j.dtypes == l.dtypes + (r.dtypes - {Key})
  {
    var lc, rc := NameSet(l.names), NameSet(r.names);
    WellFormedRows(l);
    WellFormedRows(r);
    LeftPartShape(l.rows, r.rows, lc, rc);
    RightPartShape(r.rows, KeysOf(l.rows), lc, rc);
    DistinctAppend(l.names, Without(r.names, Key));
    var rows := LeftPart(l.rows, r.rows, rc - {Key}) + RightPart(r.rows, KeysOf(l.rows), lc);
    assert AllHave(rows, lc + (rc - {Key}));
    Table(l.names + Without(r.names, Key), l.dtypes + (r.dtypes - {Key}), rows)
  }

  /** `l.merge(r, on='sample_id', how='outer')`: pandas raises `KeyError`
      when either side has no `sample_id` column. */
  function Merge(l: Table, r: Table): (m: Result<Table>)
    requires WellFormed(l) && WellFormed(r)
    requires forall c :: c in r.names && c != Key ==> c !in l.names
    ensures m.Ok? <==> Key in l.names && Key in r.names
    ensures m.Err? ==> m.error == KeyError(Key)
    ensures m.Ok? ==> WellFormed(m.value) && m.value.names == l.names + Without(r.names, Key)
  {
    if Key !in l.names || Key !in r.names then Err(KeyError(Key)) else Ok(Join(l, r))
  }

  // ---------------------------------------------------------------------------
  // Keys of the join
  // ---------------------------------------------------------------------------

  lemma {:induction false} KeysOfConstant(rows: seq<Row>, k: Cell)
    requires rows != []
    requires forall x :: x in rows ==> Key in x && x[Key] == k
    ensures KeysOf(rows) == {k}
  {
    if |rows| > 1 {
      KeysOfConstant(rows[1..], k);
    }
  }

  lemma {:induction false} LeftPartKeys(ls: seq<Row>, rs: seq<Row>, rightCols: set<string>)
    requires HasKey(ls) && Key !in rightCols
    ensures KeysOf(LeftPart(ls, rs, rightCols)) == KeysOf(ls)
  {
    if ls != [] {
      LeftPartKeys(ls[1..], rs, rightCols);
      KeysOfConstant(Expand(ls[0], rs, rightCols), ls[0][Key]);
      KeysOfAppend(Expand(ls[0], rs, rightCols), LeftPart(ls[1..], rs, rightCols));
    }
  }

  lemma {:induction false} RightPartKeys(rs: seq<Row>, lk: set<Cell>, lc: set<string>)
    requires HasKey(rs)
    ensures KeysOf(RightPart(rs, lk, lc)) == KeysOf(rs) - lk
  {
    if rs != [] {
      RightPartKeys(rs[1..], lk, lc);
      var head := if rs[0][Key] in lk then [] else [Orphan(rs[0], lc)];
      KeysOfAppend(head, RightPart(rs[1..], lk, lc));
    }
  }

  /** Every `sample_id` of either input appears in the output, and no other. */
  lemma JoinKeys(l: Table, r: Table)
    requires JoinReady(l, r)
    ensures KeysOf(Join(l, r).rows) == KeysOf(l.rows) + KeysOf(r.rows)
  {
    var lc, rc := NameSet(l.names), NameSet(r.names);
    WellFormedRows(l);
    WellFormedRows(r);
    LeftPartKeys(l.rows, r.rows, rc - {Key});
    RightPartKeys(r.rows, KeysOf(l.rows), lc);
    KeysOfAppend(LeftPart(l.rows, r.rows, rc - {Key}), RightPart(r.rows, KeysOf(l.rows), lc));
  }

  // ---------------------------------------------------------------------------
  // No row is lost
  // ---------------------------------------------------------------------------

  lemma {:induction false} LeftPartHas(ls: seq<Row>, rs: seq<Row>, rightCols: set<string>, i: int, o: Row)
    requires HasKey(ls) && 0 <= i < |ls| && o in Expand(ls[i], rs, rightCols)
    ensures o in LeftPart(ls, rs, rightCols)
  {
    if i > 0 {
      LeftPartHas(ls[1..], rs, rightCols, i - 1, o);
    }
  }

  lemma {:induction false} RightPartHas(rs: seq<Row>, lk: set<Cell>, lc: set<string>, i: int)
    requires HasKey(rs) && 0 <= i < |rs| && rs[i][Key] !in lk
    ensures Orphan(rs[i], lc) in RightPart(rs, lk, lc)
  {
    if i > 0 {
      RightPartHas(rs[1..], lk, lc, i - 1);
    }
  }

  /** A left row whose key the right table lacks comes out padded with NaN in
      the right table's columns. */
  lemma JoinUnmatchedLeft(l: Table, r: Table, i: int)
    requires JoinReady(l, r) && 0 <= i < |l.rows|
    requires l.rows[i][Key] !in KeysOf(r.rows)
    ensures l.rows[i] + Pad(NameSet(r.names) - {Key}) in Join(l, r).rows
  {
    var rc := NameSet(r.names) - {Key};
    WellFormedRows(l);
    MatchingNone(r.rows, l.rows[i][Key]);
    LeftPartHas(l.rows, r.rows, rc, i, l.rows[i] + Pad(rc));
  }

  /** A right row whose key the left table lacks comes out with its own cells
      and NaN in every other left column. */
  lemma JoinUnmatchedRight(l: Table, r: Table, i: int)
    requires JoinReady(l, r) && 0 <= i < |r.rows|
    requires r.rows[i][Key] !in KeysOf(l.rows)
    ensures Orphan(r.rows[i], NameSet(l.names)) in Join(l, r).rows
  {
    WellFormedRows(r);
    RightPartHas(r.rows, KeysOf(l.rows), NameSet(l.names), i);
  }

  /** Every output row of a left row holds all of that row's cells. */
  lemma ExpandExtends(l: Row, rs: seq<Row>, rc: set<string>, rcAll: set<string>)
    requires Key in l && AllHave(rs, rcAll) && rc == rcAll - {Key} && l.Keys !! rc
    ensures forall o :: o in Expand(l, rs, rc) ==> Extends(o, l)
  {
    var ms := Matching(rs, l[Key]);
    forall o | o in Expand(l, rs, rc)
      ensures Extends(o, l)
    {
      if ms != [] {
        var j :| 0 <= j < |ms| && o == l + (ms[j] - {Key});
        assert ms[j] in ms;
      }
    }
  }

  /** A right row with the left row's key is glued onto it. */
  lemma ExpandHasMatch(l: Row, rs: seq<Row>, rc: set<string>, x: Row)
    requires Key in l && x in rs && CellIs(x, Key, l[Key])
    ensures l + (x - {Key}) in Expand(l, rs, rc)
    ensures Extends(l + (x - {Key}), x)
  {
    var ms := Matching(rs, l[Key]);
    assert x in ms;
    var m :| 0 <= m < |ms| && ms[m] == x;
    assert Expand(l, rs, rc)[m] == l + (x - {Key});
  }

  /** Every left row survives: some output row holds all of its cells. */
  lemma JoinKeepsLeftRows(l: Table, r: Table, i: int) returns (o: Row)
    requires JoinReady(l, r) && 0 <= i < |l.rows|
    ensures o in Join(l, r).rows && Extends(o, l.rows[i])
  {
    var rc := NameSet(r.names) - {Key};
    WellFormedRows(l);
    WellFormedRows(r);
    assert l.rows[i] in l.rows;
    ExpandExtends(l.rows[i], r.rows, rc, NameSet(r.names));
    o := Expand(l.rows[i], r.rows, rc)[0];
    LeftPartHas(l.rows, r.rows, rc, i, o);
  }

  /** Every right row survives: some output row holds all of its cells. */
  lemma JoinKeepsRightRows(l: Table, r: Table, i: int) returns (o: Row)
    requires JoinReady(l, r) && 0 <= i < |r.rows|
    ensures o in Join(l, r).rows && Extends(o, r.rows[i])
  {
    var x := r.rows[i];
    WellFormedRows(l);
    WellFormedRows(r);
    if x[Key] in KeysOf(l.rows) {
      var k := KeysOfWitness(l.rows, x[Key]);
      var rc := NameSet(r.names) - {Key};
      ExpandHasMatch(l.rows[k], r.rows, rc, x);
      o := l.rows[k] + (x - {Key});
      LeftPartHas(l.rows, r.rows, rc, k, o);
    } else {
      o := Orphan(x, NameSet(l.names));
      RightPartHas(r.rows, KeysOf(l.rows), NameSet(l.names), i);
    }
  }

  // ---------------------------------------------------------------------------
  // Row counts
  // ---------------------------------------------------------------------------

  lemma {:induction false} LeftPartAtLeast(ls: seq<Row>, rs: seq<Row>, rightCols: set<string>)
    requires HasKey(ls)
    ensures |LeftPart(ls, rs, rightCols)| >= |ls|
  {
    if ls != [] {
      LeftPartAtLeast(ls[1..], rs, rightCols);
    }
  }

  /** An outer join never has fewer rows than its left table. */
  lemma JoinNeverShrinks(l: Table, r: Table)
    requires JoinReady(l, r)
    ensures |Join(l, r).rows| >= |l.rows|
  {
    WellFormedRows(l);
    LeftPartAtLeast(l.rows, r.rows, NameSet(r.names) - {Key});
  }

  lemma {:induction false} MatchingUnique(rs: seq<Row>, k: Cell)
    requires UniqueKeys(rs)
    ensures |Matching(rs, k)| <= 1
  {
    if rs != [] {
      FirstKeyFresh(rs);
      MatchingUnique(rs[1..], k);
      if CellIs(rs[0], Key, k) {
        MatchingNone(rs[1..], k);
      }
    }
  }

  lemma {:induction false} LeftPartUnique(ls: seq<Row>, rs: seq<Row>, rightCols: set<string>)
    requires HasKey(ls) && UniqueKeys(rs)
    ensures |LeftPart(ls, rs, rightCols)| == |ls|
  {
    if ls != [] {
      MatchingUnique(rs, ls[0][Key]);
      LeftPartUnique(ls[1..], rs, rightCols);
    }
  }

  lemma {:induction false} RightPartUnique(rs: seq<Row>, lk: set<Cell>, lc: set<string>)
    requires UniqueKeys(rs)
    ensures |RightPart(rs, lk, lc)| == |KeysOf(rs) - lk|
  {
    if rs != [] {
      FirstKeyFresh(rs);
      RightPartUnique(rs[1..], lk, lc);
      var k0 := rs[0][Key];
      assert KeysOf(rs) - lk == ({k0} - lk) + (KeysOf(rs[1..]) - lk);
    }
  }

  /** With unique keys on both sides, an `N`-row registry joined with a
      table holding `K` keys the registry lacks has `N + K` rows. */
  lemma JoinRowCount(l: Table, r: Table)
    requires JoinReady(l, r) && UniqueKeys(l.rows) && UniqueKeys(r.rows)
    ensures |Join(l, r).rows| == |l.rows| + |KeysOf(r.rows) - KeysOf(l.rows)|
  {
    LeftPartUnique(l.rows, r.rows, NameSet(r.names) - {Key});
    RightPartUnique(r.rows, KeysOf(l.rows), NameSet(l.names));
  }

  /** ... which is the number of distinct keys of the two tables together. */
  lemma JoinRowCountIsKeyUnion(l: Table, r: Table)
    requires JoinReady(l, r) && UniqueKeys(l.rows) && UniqueKeys(r.rows)
    ensures |Join(l, r).rows| == |KeysOf(l.rows) + KeysOf(r.rows)|
  {
    JoinRowCount(l, r);
    KeysOfUniqueSize(l.rows);
    var kl, kr := KeysOf(l.rows), KeysOf(r.rows);
    assert kl + kr == kl + (kr - kl);
    assert kl !! (kr - kl);
  }

  // ---------------------------------------------------------------------------
  // The fold: bison_table = bison_table.merge(t, ...) for each test table t
  // ---------------------------------------------------------------------------

  ghost predicate FoldReady(base: Table, ts: seq<Table>)
    decreases |ts|
  {
    && WellFormed(base) && Key in base.names
    && (ts != [] ==> JoinReady(base, ts[0]) && FoldReady(Join(base, ts[0]), ts[1..]))
  }

  /** The registry after merging every table of `ts`, in order. */
  function MergeAll(base: Table, ts: seq<Table>): (m: Table)
    requires FoldReady(base, ts)
    ensures WellFormed(m)
    decreases |ts|
  {
    if ts == [] then base else MergeAll(Join(base, ts[0]), ts[1..])
  }

  /** The non-key labels the tables of `ts` contribute, in order. */
  function AddedNames(ts: seq<Table>): seq<string> {
    if ts == [] then [] else Without(ts[0].names, Key) + AddedNames(ts[1..])
  }

  function AllKeys(ts: seq<Table>): set<Cell> {
    if ts == [] then {} else KeysOf(ts[0].rows) + AllKeys(ts[1..])
  }

  lemma SeqAssoc<T>(a: seq<T>, b: seq<T>, c: seq<T>)
    ensures (a + b) + c == a + (b + c)
  {
  }

  /** Over the whole fold every base column is kept and each table's non-key columns are added after it, in order. */
  lemma {:induction false} MergeAllNames(base: Table, ts: seq<Table>)
    requires FoldReady(base, ts)
    ensures MergeAll(base, ts).names == base.names + AddedNames(ts)
    decreases |ts|
  {
    if ts == [] {
      assert base.names + AddedNames(ts) == base.names;
    } else {
      var j := Join(base, ts[0]);
      MergeAllNames(j, ts[1..]);
      var w, rest := Without(ts[0].names, Key), AddedNames(ts[1..]);
      calc {
        MergeAll(base, ts).names;
        MergeAll(j, ts[1..]).names;
        j.names + rest;
        (base.names + w) + rest;
        { SeqAssoc(base.names, w, rest); }
        base.names + (w + rest);
        base.names + AddedNames(ts);
      }
    }
  }

  /** The keys of the merged frame are those of the base and of every table. */
  lemma {:induction false} MergeAllKeys(base: Table, ts: seq<Table>)
    requires FoldReady(base, ts)
    ensures KeysOf(MergeAll(base, ts).rows) == KeysOf(base.rows) + AllKeys(ts)
    decreases |ts|
  {
    if ts != [] {
      MergeAllKeys(Join(base, ts[0]), ts[1..]);
      JoinKeys(base, ts[0]);
    }
  }

  /** The row count never drops along the fold. */
  lemma {:induction false} MergeAllNeverShrinks(base: Table, ts: seq<Table>)
    requires FoldReady(base, ts)
    ensures |MergeAll(base, ts).rows| >= |base.rows|
    decreases |ts|
  {
    if ts != [] {
      MergeAllNeverShrinks(Join(base, ts[0]), ts[1..]);
      JoinNeverShrinks(base, ts[0]);
    }
  }

  /** Every base row survives the fold: some merged row carries all its cells. */
  lemma {:induction false} MergeAllKeepsBaseRow(base: Table, ts: seq<Table>, i: int) returns (o: Row)
    requires FoldReady(base, ts) && 0 <= i < |base.rows|
    ensures o in MergeAll(base, ts).rows && Extends(o, base.rows[i])
    decreases |ts|
  {
    if ts == [] {
      o := base.rows[i];
    } else {
      var j := Join(base, ts[0]);
      var o1 := JoinKeepsLeftRows(base, ts[0], i);
      var k :| 0 <= k < |j.rows| && j.rows[k] == o1;
      o := MergeAllKeepsBaseRow(j, ts[1..], k);
    }
  }

  /** Every row of every merged table survives too: its key and cells appear
      in some merged row (padded with NaN where no base row matched it). */
  lemma {:induction false} MergeAllKeepsTableRow(base: Table, ts: seq<Table>, n: int, i: int) returns (o: Row)
    requires FoldReady(base, ts) && 0 <= n < |ts| && 0 <= i < |ts[n].rows|
    ensures o in MergeAll(base, ts).rows && Extends(o, ts[n].rows[i])
    decreases |ts|
  {
    var j := Join(base, ts[0]);
    if n == 0 {
      var o1 := JoinKeepsRightRows(base, ts[0], i);
      var k :| 0 <= k < |j.rows| && j.rows[k] == o1;
      o := MergeAllKeepsBaseRow(j, ts[1..], k);
      ExtendsTransitive(o, o1, ts[0].rows[i]);
    } else {
      assert ts[1..][n - 1] == ts[n];
      o := MergeAllKeepsTableRow(j, ts[1..], n - 1, i);
    }
  }

  /** The halves of a duplicate-free label list are duplicate-free and share
      no label. */
  lemma DistinctSplit(a: seq<string>, b: seq<string>)
    requires Distinct(a + b)
    ensures Distinct(a) && Distinct(b) && NameSet(a) !! NameSet(b)
  {
    forall i, j | 0 <= i < |a| && 0 <= j < |b|
      ensures a[i] != b[j]
    {
      assert (a + b)[i] == a[i] && (a + b)[|a| + j] == b[j];
    }
    forall i, j | 0 <= i < j < |a|
      ensures a[i] != a[j]
    {
      assert (a + b)[i] == a[i] && (a + b)[j] == a[j];
    }
    forall i, j | 0 <= i < j < |b|
      ensures b[i] != b[j]
    {
      assert (a + b)[|a| + i] == b[i] && (a + b)[|a| + j] == b[j];
    }
  }

  /** When every table carries the key and no label repeats across the base
      and the tables' other columns, every merge of the fold succeeds without
      suffixing. */
  lemma {:induction false} FoldReadyDistinct(base: Table, ts: seq<Table>)
    requires WellFormed(base) && Key in base.names
    requires forall n :: 0 <= n < |ts| ==> WellFormed(ts[n]) && Key in ts[n].names
    requires Distinct(base.names + AddedNames(ts))
    ensures FoldReady(base, ts)
    decreases |ts|
  {
    if ts != [] {
      var w := Without(ts[0].names, Key);
      SeqAssoc(base.names, w, AddedNames(ts[1..]));
      DistinctSplit(base.names + w, AddedNames(ts[1..]));
      DistinctSplit(base.names, w);
      forall c | c in ts[0].names && c != Key
        ensures c !in base.names
      {
        assert c in NameSet(w);
      }
      var j := Join(base, ts[0]);
      assert forall n :: 0 <= n < |ts[1..]| ==> ts[1..][n] == ts[n + 1];
      FoldReadyDistinct(j, ts[1..]);
    }
  }

  /** One step of the fold: the first merge, then the rest. */
  lemma MergeAllStep(base: Table, ts: seq<Table>)
    requires FoldReady(base, ts) && ts != []
    ensures JoinReady(base, ts[0]) && FoldReady(Join(base, ts[0]), ts[1..])
    ensures MergeAll(base, ts) == MergeAll(Join(base, ts[0]), ts[1..])
  {
  }

  /** A fold over one table is one join. */
  lemma MergeAllOne(base: Table, d: Table)
    requires FoldReady(base, [d])
    ensures JoinReady(base, d) && MergeAll(base, [d]) == Join(base, d)
  {
    assert [d][1..] == [];
    MergeAllStep(base, [d]);
  }

  /** A fold over two tables is two joins in a row. */
  lemma MergeAllTwo(base: Table, c: Table, d: Table)
    requires FoldReady(base, [c, d])
    ensures JoinReady(base, c) && JoinReady(Join(base, c), d)
    ensures MergeAll(base, [c, d]) == Join(Join(base, c), d)
  {
    assert [c, d][1..] == [d];
    MergeAllStep(base, [c, d]);
    MergeAllOne(Join(base, c), d);
  }

  /** A fold over three tables is three joins in a row. */
  lemma MergeAllThree(base: Table, b: Table, c: Table, d: Table)
    requires FoldReady(base, [b, c, d])
    ensures JoinReady(base, b) && JoinReady(Join(base, b), c) && JoinReady(Join(Join(base, b), c), d)
    ensures MergeAll(base, [b, c, d]) == Join(Join(Join(base, b), c), d)
  {
    assert [b, c, d][1..] == [c, d];
    MergeAllStep(base, [b, c, d]);
    MergeAllTwo(Join(base, b), c, d);
  }

  /** A fold over four tables is four joins in a row. */
  lemma MergeAllFour(base: Table, a: Table, b: Table, c: Table, d: Table)
    requires FoldReady(base, [a, b, c, d])
    ensures JoinReady(base, a) && JoinReady(Join(base, a), b)
    ensures JoinReady(Join(Join(base, a), b), c) && JoinReady(Join(Join(Join(base, a), b), c), d)
    ensures MergeAll(base, [a, b, c, d]) == Join(Join(Join(Join(base, a), b), c), d)
  {
    assert [a, b, c, d][1..] == [b, c, d];
    MergeAllStep(base, [a, b, c, d]);
    MergeAllThree(Join(base, a), b, c, d);
  }

  /** The labels four tables add to a fold. */
  lemma FoldFourNames(a: Table, b: Table, c: Table, d: Table)
    ensures AddedNames([a, b, c, d]) ==
      Without(a.names, Key) + (Without(b.names, Key) + (Without(c.names, Key) + Without(d.names, Key)))
  {
    assert [a, b, c, d][1..] == [b, c, d];
    assert [b, c, d][1..] == [c, d];
    assert [c, d][1..] == [d];
    assert [d][1..] == [];
    assert AddedNames([d]) == Without(d.names, Key) + [];
    assert AddedNames([c, d]) == Without(c.names, Key) + AddedNames([d]);
    assert AddedNames([b, c, d]) == Without(b.names, Key) + AddedNames([c, d]);
  }

  /** The keys four tables add to a fold. */
  lemma FoldFourKeys(a: Table, b: Table, c: Table, d: Table)
    ensures AllKeys([a, b, c, d]) == KeysOf(a.rows) + KeysOf(b.rows) + KeysOf(c.rows) + KeysOf(d.rows)
  {
    assert [a, b, c, d][1..] == [b, c, d];
    assert [b, c, d][1..] == [c, d];
    assert [c, d][1..] == [d];
    assert [d][1..] == [];
    assert AllKeys([d]) == KeysOf(d.rows);
    assert AllKeys([c, d]) == KeysOf(c.rows) + AllKeys([d]);
    assert AllKeys([b, c, d]) == KeysOf(b.rows) + AllKeys([c, d]);
  }
}
