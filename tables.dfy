/** DataFrames as values: ordered column labels, a dtype per column, and rows
    mapping each label to a cell. The pandas index is not represented. */
module Tables {
  import opened Cells

  /** The only dtype distinction the helpers make: `select_dtypes(['object'])`
      picks the `Object` columns (strings); numbers and dates are `Numeric`. */
  datatype Dtype = Object | Numeric

  /** One cell: a string, a number (dates included) or NaN. */
  datatype Cell = Text(s: string) | Num(n: int) | Missing

  type Row = map<string, Cell>

  datatype Table = Table(names: seq<string>, dtypes: map<string, Dtype>, rows: seq<Row>)

  /** The join key every per-test table is brought to. */
  const Key := "sample_id"

  predicate Distinct<T(==)>(s: seq<T>) {
    forall i, j :: 0 <= i < j < |s| ==> s[i] != s[j]
  }

  function NameSet(names: seq<string>): set<string> {
    set c | c in names
  }

  /** Labels are distinct, and every row and the dtype map have exactly the
      frame's columns. */
  ghost predicate WellFormed(t: Table) {
    && Distinct(t.names)
    && t.dtypes.Keys == NameSet(t.names)
    && forall i :: 0 <= i < |t.rows| ==> t.rows[i].Keys == NameSet(t.names)
  }

  /** `t[c]` as a list of cells. */
  function Column(t: Table, c: string): (cells: seq<Cell>)
    requires WellFormed(t) && c in t.names
    ensures |cells| == |t.rows|
  {
    seq(|t.rows|, i requires 0 <= i < |t.rows| => t.rows[i][c])
  }

  /** `names` without the label `c`, order kept. */
  function Without(names: seq<string>, c: string): (r: seq<string>)
    ensures NameSet(r) == NameSet(names) - {c}
    ensures Distinct(names) ==> Distinct(r)
    ensures c !in names ==> r == names
  {
    if names == [] then []
    else if names[0] == c then Without(names[1..], c)
    else
      var rest := Without(names[1..], c);
      assert NameSet(names) == {names[0]} + NameSet(names[1..]);
      assert NameSet([names[0]] + rest) == {names[0]} + NameSet(rest);
      assert Distinct(names) ==> names[0] !in names[1..];
      [names[0]] + rest
  }

  /** `t[c] = cells`: an existing column is overwritten where it stands, a
      new one is appended as the last column; no other cell changes. */
  function WithColumn(t: Table, c: string, dtype: Dtype, cells: seq<Cell>): (r: Table)
    requires WellFormed(t) && |cells| == |t.rows|
    ensures WellFormed(r)
    ensures r.names == if c in t.names then t.names else t.names + [c]
    ensures r.dtypes == t.dtypes[c := dtype] && |r.rows| == |t.rows|
    ensures forall i :: 0 <= i < |r.rows| ==> r.rows[i] == t.rows[i][c := cells[i]]
  {
    Table(if c in t.names then t.names else t.names + [c], t.dtypes[c := dtype],
          seq(|t.rows|, i requires 0 <= i < |t.rows| => t.rows[i][c := cells[i]]))
  }

  /** `del t[c]`: the column is gone from the labels, the dtypes and every row. */
  function Dropped(t: Table, c: string): (r: Table)
    requires WellFormed(t)
    ensures WellFormed(r)
    ensures r.names == Without(t.names, c) && r.dtypes == t.dtypes - {c} && |r.rows| == |t.rows|
    ensures forall i :: 0 <= i < |r.rows| ==> r.rows[i] == t.rows[i] - {c}
  {
    Table(Without(t.names, c), t.dtypes - {c}, seq(|t.rows|, i requires 0 <= i < |t.rows| => t.rows[i] - {c}))
  }

  // ---------------------------------------------------------------------------
  // .str.strip() over the object columns
  // ---------------------------------------------------------------------------

  /** `.str.strip()` on one cell of an object column: a string is stripped;
      anything else (NaN, or a number stored in an object column) is NaN. */
  function StripCell(c: Cell): (r: Cell)
    ensures r.Text? ==> IsStripped(r.s)
    ensures r.Text? <==> c.Text?
  {
    match c
    case Text(s) => Text(Strip(s))
    case _ => Missing
  }

  function StripRow(dtypes: map<string, Dtype>, row: Row): Row
    requires row.Keys <= dtypes.Keys
  {
    map c | c in row :: if dtypes[c] == Object then StripCell(row[c]) else row[c]
  }

  /** The table `panda_stripper` leaves: every object column stripped. */
  function StripTable(t: Table): (r: Table)
    requires WellFormed(t)
    ensures WellFormed(r)
    ensures r.names == t.names && r.dtypes == t.dtypes && |r.rows| == |t.rows|
  {
    t.(rows := seq(|t.rows|, i requires 0 <= i < |t.rows| => StripRow(t.dtypes, t.rows[i])))
  }

  /** The `.str` accessor accepts an object column holding a string, or one
      holding nothing but NaN; a column whose non-null cells are all
      non-strings makes it raise `AttributeError`. */
  predicate StrAccepts(cells: seq<Cell>) {
    (exists i :: 0 <= i < |cells| && cells[i].Text?)
    || (forall i :: 0 <= i < |cells| ==> !cells[i].Num?)
  }

  /** `panda_stripper` can strip every object column of `t` without raising. */
  predicate Strippable(t: Table)
    requires WellFormed(t)
  {
    forall c :: c in t.names && t.dtypes[c] == Object ==> StrAccepts(Column(t, c))
  }

  /** A stripped table holds no number in an object column, so stripping it
      again cannot raise. */
  lemma StripTableStrippable(t: Table)
    requires WellFormed(t)
    ensures Strippable(StripTable(t))
  {
    var s := StripTable(t);
    forall c | c in s.names && s.dtypes[c] == Object
      ensures StrAccepts(Column(s, c))
    {
      assert forall i :: 0 <= i < |s.rows| ==> Column(s, c)[i] == StripCell(t.rows[i][c]);
    }
  }

  /** No text cell of an object column keeps leading or trailing whitespace,
      and every cell of any other column is exactly what it was. */
  lemma StripTableCells(t: Table, i: int, c: string)
    requires WellFormed(t) && 0 <= i < |t.rows| && c in t.names
    ensures t.dtypes[c] == Object ==>
      var x := StripTable(t).rows[i][c];
      (x.Text? ==> IsStripped(x.s)) && (x.Text? <==> t.rows[i][c].Text?)
    ensures t.dtypes[c] != Object ==> StripTable(t).rows[i][c] == t.rows[i][c]
  {
  }

  lemma StripCellIdempotent(c: Cell)
    ensures StripCell(StripCell(c)) == StripCell(c)
  {
    if c.Text? {
      StripIdempotent(c.s);
    }
  }

  /** Stripping a stripped table changes nothing. */
  lemma StripTableIdempotent(t: Table)
    requires WellFormed(t)
    ensures StripTable(StripTable(t)) == StripTable(t)
  {
    var s := StripTable(t);
    var s2 := StripTable(s);
    forall i | 0 <= i < |s.rows|
      ensures s2.rows[i] == s.rows[i]
    {
      forall c | c in s.rows[i]
        ensures s2.rows[i][c] == s.rows[i][c]
      {
        StripCellIdempotent(t.rows[i][c]);
      }
    }
  }

  // ---------------------------------------------------------------------------
  // reindex(columns=...)
  // ---------------------------------------------------------------------------

  /** `t.reindex(columns=targets)`: exactly the `targets` columns, in that
      order; a label of `t` keeps its cells and dtype, a label `t` lacks
      becomes an all-NaN float column. */
  function Reindex(t: Table, targets: seq<string>): (r: Table)
    requires WellFormed(t) && Distinct(targets)
    ensures WellFormed(r) && r.names == targets && |r.rows| == |t.rows|
    ensures forall c :: c in targets ==>
      r.dtypes[c] == (if c in t.names then t.dtypes[c] else Numeric)
    ensures forall i, c :: 0 <= i < |r.rows| && c in targets ==>
      r.rows[i][c] == (if c in t.names then t.rows[i][c] else Missing)
  {
    Table(targets,
          map c | c in targets :: if c in t.names then t.dtypes[c] else Numeric,
          seq(|t.rows|, i requires 0 <= i < |t.rows| =>
            map c | c in targets :: if c in t.rows[i] then t.rows[i][c] else Missing))
  }

  // ---------------------------------------------------------------------------
  // df.drop(df[df[c] == v].index)
  // ---------------------------------------------------------------------------

  predicate CellIs(row: Row, c: string, v: Cell) {
    c in row && row[c] == v
  }

  /** The rows left by `df.drop(df[df[c] == v].index)`: exactly the rows whose
      `c` cell is not `v`. */
  function DropRows(rows: seq<Row>, c: string, v: Cell): (kept: seq<Row>)
    ensures |kept| <= |rows|
    ensures forall x :: x in kept <==> x in rows && !CellIs(x, c, v)
  {
    if rows == [] then []
    else (if CellIs(rows[0], c, v) then [] else [rows[0]]) + DropRows(rows[1..], c, v)
  }

  /** `t.drop(t[t[c] == v].index)`: the same columns, with exactly the rows
      whose `c` cell is not `v` left. */
  function DropWhere(t: Table, c: string, v: Cell): (r: Table)
    requires WellFormed(t)
    ensures WellFormed(r) && r.names == t.names && r.dtypes == t.dtypes
    ensures forall x :: x in r.rows <==> x in t.rows && !CellIs(x, c, v)
  {
    var kept := DropRows(t.rows, c, v);
    assert forall i :: 0 <= i < |kept| ==> kept[i] in t.rows;
    t.(rows := kept)
  }

  /** Dropping works piecewise, so the kept rows stay in their original order. */
  lemma {:induction false} DropRowsAppend(a: seq<Row>, b: seq<Row>, c: string, v: Cell)
    ensures DropRows(a + b, c, v) == DropRows(a, c, v) + DropRows(b, c, v)
  {
    if a == [] {
      assert a + b == b;
    } else {
      assert (a + b)[1..] == a[1..] + b;
      DropRowsAppend(a[1..], b, c, v);
    }
  }

  /** A table without the value keeps every row. */
  lemma {:induction false} DropRowsNone(rows: seq<Row>, c: string, v: Cell)
    requires forall i :: 0 <= i < |rows| ==> !CellIs(rows[i], c, v)
    ensures DropRows(rows, c, v) == rows
  {
    if rows != [] {
      DropRowsNone(rows[1..], c, v);
    }
  }

  function CountIs(rows: seq<Row>, c: string, v: Cell): nat {
    if rows == [] then 0 else (if CellIs(rows[0], c, v) then 1 else 0) + CountIs(rows[1..], c, v)
  }

  /** Dropped rows are all and only those holding `v`: the sizes add up. */
  lemma {:induction false} DropRowsCount(rows: seq<Row>, c: string, v: Cell)
    ensures |DropRows(rows, c, v)| + CountIs(rows, c, v) == |rows|
  {
    if rows != [] {
      DropRowsCount(rows[1..], c, v);
    }
  }
}
