/** `bison_etl`: the registry read from the sample sheet, four per-test
    tables brought to `[sample_id, <test>_result]` shape, and the outer
    merges that fold them into the registry. Reading the Excel sheets is I/O:
    each sheet arrives as a parameter, already read. */
module Bison {
  import opened Outcomes
  import opened Cells
  import opened Tables
  import opened Frames
  import opened Helpers
  import opened Joins

  const Specimens := "Animals::Specimens"
  const Titer := "Titer"
  const EhdvResult := "Result"
  const SerumRow := Text(":: Serum")

  const RegistryNames := ["sample_id", "archive_id", "species", "sex", "capture_date", "capture_unit"]
  const BluetongueNames := ["animal", "preg_val", "preg_result", "bluetongue_result"]
  const ResultNames := ["bvd_type1_result", "bvd_type2_result", "ehdv_result",
                         "preg_val", "preg_result", "bluetongue_result"]
  const BisonNames := RegistryNames + ResultNames

  // ---------------------------------------------------------------------------
  // Trimming results: column.apply(lambda row: row.split()[0])
  // ---------------------------------------------------------------------------

  /** A cell `row.split()[0]` accepts: a string that is not blank. */
  predicate Trimmable(c: Cell) {
    c.Text? && !AllSpace(c.s)
  }

  /** `cells.apply(lambda row: row.split()[0])`. The first cell that is not a
      string raises `AttributeError` (NaN has no `split`), the first blank
      string raises `IndexError`; otherwise each cell becomes its first word. */
  function FirstWords(cells: seq<Cell>): (r: Result<seq<Cell>>)
    ensures r.Ok? <==> forall i :: 0 <= i < |cells| ==> Trimmable(cells[i])
    ensures r.Ok? ==> |r.value| == |cells|
    ensures r.Ok? ==> forall i :: 0 <= i < |cells| ==>
      FirstWord(cells[i].s).Some? && r.value[i] == Text(FirstWord(cells[i].s).value)
    ensures r.Err? ==> r.error == AttributeError || r.error == IndexError
  {
    if cells == [] then Ok([])
    else if !cells[0].Text? then Err(AttributeError)
    else if AllSpace(cells[0].s) then
      FirstWordBlank(cells[0].s);
      Err(IndexError)
    else
      FirstWordBlank(cells[0].s);
      var rest := FirstWords(cells[1..]);
      assert forall i :: 1 <= i < |cells| ==> cells[i] == cells[1..][i - 1];
      if rest.Err? then rest
      else Ok([Text(FirstWord(cells[0].s).value)] + rest.value)
  }

  /** The error `FirstWords` raises is the one of the first cell it rejects. */
  lemma {:induction false} FirstWordsError(cells: seq<Cell>) returns (i: nat)
    requires FirstWords(cells).Err?
    ensures i < |cells| && !Trimmable(cells[i])
    ensures forall k :: 0 <= k < i ==> Trimmable(cells[k])
    ensures FirstWords(cells).error == if cells[i].Text? then IndexError else AttributeError
  {
    if !cells[0].Text? {
      i := 0;
    } else if AllSpace(cells[0].s) {
      FirstWordBlank(cells[0].s);
      i := 0;
    } else {
      FirstWordBlank(cells[0].s);
      var j := FirstWordsError(cells[1..]);
      i := j + 1;
    }
  }

  // ---------------------------------------------------------------------------
  // Sample identifiers of a column
  // ---------------------------------------------------------------------------

  /** The identifiers `get_sample_id` extracts from the `column` cells of `rows`. */
  ghost function IdsOf(rows: seq<Row>, column: string): set<Cell> {
    set i | 0 <= i < |rows| && column in rows[i] && rows[i][column].Text? :: Text(SampleIdOf(rows[i][column].s))
  }

  /** Rows whose key is the identifier of the matching source row have
      exactly those identifiers as their keys. */
  lemma KeysOfIds(rows: seq<Row>, src: seq<Row>, column: string)
    requires |rows| == |src|
    requires forall i :: 0 <= i < |rows| ==>
      Key in rows[i] && column in src[i] && src[i][column].Text? &&
      rows[i][Key] == Text(SampleIdOf(src[i][column].s))
    ensures KeysOf(rows) == IdsOf(src, column)
  {
    forall k | k in KeysOf(rows)
      ensures k in IdsOf(src, column)
    {
      var i := KeysOfWitness(rows, k);
    }
    forall k | k in IdsOf(src, column)
      ensures k in KeysOf(rows)
    {
      var i :| 0 <= i < |src| && column in src[i] && src[i][column].Text? && k == Text(SampleIdOf(src[i][column].s));
      KeysOfHas(rows, i);
    }
  }

  // ---------------------------------------------------------------------------
  // The registry: the sample sheet's six columns, renamed and stripped
  // ---------------------------------------------------------------------------

  /** The registry table every merge extends. */
  function RegistryOf(sheet: Table): (reg: Table)
    requires WellFormed(sheet) && |sheet.names| == |RegistryNames|
    ensures WellFormed(reg) && reg.names == RegistryNames && |reg.rows| == |sheet.rows|
  {
    StripTable(Relabeled(sheet, RegistryNames))
  }

  /** The registry's `sample_id` cells are the stripped cells of the sheet's
      first column, row by row. */
  lemma RegistryKeys(sheet: Table, i: int)
    requires WellFormed(sheet) && |sheet.names| == |RegistryNames| && 0 <= i < |sheet.rows|
    ensures RegistryOf(sheet).rows[i][Key] == StripTable(sheet).rows[i][sheet.names[0]]
  {
    assert RegistryNames[0] == Key;
    StripTableCells(Relabeled(sheet, RegistryNames), i, Key);
    StripTableCells(sheet, i, sheet.names[0]);
  }

  /** `bison_table.columns = [...]` then `panda_stripper(bison_table)`. A
      sheet without exactly six columns makes the renaming raise; an object
      column the `.str` accessor rejects makes the stripping raise. */
  method RegistryTable(sheet: Table) returns (r: Result<Table>)
    requires WellFormed(sheet)
    ensures r.Ok? <==> |sheet.names| == |RegistryNames| && Strippable(sheet)
    ensures r.Err? ==> r.error == if |sheet.names| == |RegistryNames| then AttributeError
                                  else LengthMismatch(|RegistryNames|, |sheet.names|)
    ensures r.Ok? ==> |sheet.names| == |RegistryNames| && r.value == RegistryOf(sheet)
  {
    var df := new Frame(sheet);
    var ok := df.Relabel(RegistryNames);
    if !ok {
      return Err(LengthMismatch(|RegistryNames|, |sheet.names|));
    }
    RelabeledStrippable(sheet, RegistryNames);
    var s := PandaStripper(df);
    if s.Err? {
      return Err(s.error);
    }
    return Ok(df.Value());
  }

  // ---------------------------------------------------------------------------
  // Keying a frame by sample: get_sample_id, del, reindex, rename
  // ---------------------------------------------------------------------------

  /** `get_sample_id(df, column)` then `del df[column]`. */
  function KeyedBy(t: Table, column: string): Table
    requires WellFormed(t) && column in t.names && TextColumn(t, column)
  {
    Dropped(WithSampleId(t, column), column)
  }

  /** The identifier column takes the place of the column it was extracted
      from: every row is kept, gains its `sample_id` and loses `column`. */
  lemma KeyedBySpec(t: Table, column: string)
    requires WellFormed(t) && column in t.names && TextColumn(t, column) && column != Key
    ensures WellFormed(KeyedBy(t, column)) && |KeyedBy(t, column).rows| == |t.rows|
    ensures KeyedBy(t, column).names == Without(if Key in t.names then t.names else t.names + [Key], column)
    ensures NameSet(KeyedBy(t, column).names) == NameSet(t.names) + {Key} - {column}
    ensures forall i :: 0 <= i < |t.rows| ==>
      KeyedBy(t, column).rows[i] == t.rows[i][Key := Text(SampleIdOf(t.rows[i][column].s))] - {column}
  {
    WithSampleIdSpec(t, column);
    var withKey := if Key in t.names then t.names else t.names + [Key];
    assert NameSet(withKey) == NameSet(t.names) + {Key};
  }

  /** `get_sample_id(df, column)` then `del df[column]`, in place. A missing
      column raises `KeyError` and a cell that is not a string `TypeError`,
      leaving the frame as it was. */
  method KeyBy(df: Frame, column: string) returns (r: Result<Frame>)
    requires df.Valid()
    modifies df
    ensures df.Valid()
    ensures r.Ok? <==> (column in old(df.names) && TextColumn(old(df.Value()), column))
    ensures r.Err? ==> unchanged(df)
    ensures r.Err? ==> r.error == if column in old(df.names) then TypeError else KeyError(column)
    ensures r.Ok? ==> r.value == df && df.Value() == KeyedBy(old(df.Value()), column)
  {
    var g := GetSampleId(df, column);
    if g.Err? {
      return g;
    }
    var ok := df.Delete(column);
    assert ok;
    return Ok(df);
  }

  /** One row of a per-test table before trimming: the specimen's identifier
      and the value column's cell, NaN where the sheet had no such column. */
  ghost function KeyedRow(src: Row, valueColumn: string, resultName: string): (r: Row)
    requires Specimens in src && src[Specimens].Text? && resultName != Key
    ensures r.Keys == {Key, resultName}
    ensures r[resultName] == if valueColumn in src then src[valueColumn] else Missing
  {
    map[Key := Text(SampleIdOf(src[Specimens].s)),
        resultName := if valueColumn in src then src[valueColumn] else Missing]
  }

  /** Renaming a two-column frame keyed by `sample_id` to `[sample_id, n]`. */
  lemma RelabelPair(x: Table, n: string, i: int)
    requires WellFormed(x) && |x.names| == 2 && x.names[0] == Key && n != Key
    requires 0 <= i < |x.rows|
    ensures Relabeled(x, [Key, n]).rows[i] == map[Key := x.rows[i][Key], n := x.rows[i][x.names[1]]]
  {
    var labels := [Key, n];
    var u := Relabeled(x, labels);
    assert u.rows[i][labels[0]] == x.rows[i][x.names[0]];
    assert u.rows[i][labels[1]] == x.rows[i][x.names[1]];
    assert NameSet(labels) == {Key, n} by {
      assert forall c :: c in labels <==> c == Key || c == n;
    }
  }

  /** `reindex(columns=[sample_id, valueColumn])` then renaming the two
      columns to `[sample_id, resultName]`, row by row. */
  lemma ReindexRelabel(t: Table, valueColumn: string, resultName: string, i: int)
    requires WellFormed(t) && Key in t.names && valueColumn != Key && resultName != Key
    requires 0 <= i < |t.rows|
    ensures var u := Relabeled(Reindex(t, [Key, valueColumn]), [Key, resultName]);
      u.rows[i] == map[Key := t.rows[i][Key],
                       resultName := if valueColumn in t.names then t.rows[i][valueColumn] else Missing]
  {
    RelabelPair(Reindex(t, [Key, valueColumn]), resultName, i);
  }

  /** Row i of the keyed table, from row i of the frame it was built from. */
  lemma KeyedRowFrom(t: Table, d: Table, valueColumn: string, resultName: string, i: int)
    requires WellFormed(t) && WellFormed(d) && Key in d.names
    requires valueColumn != Key && valueColumn != Specimens && resultName != Key
    requires |d.rows| == |t.rows| && 0 <= i < |t.rows|
    requires Specimens in t.names && t.rows[i][Specimens].Text?
    requires d.rows[i] == t.rows[i][Key := Text(SampleIdOf(t.rows[i][Specimens].s))] - {Specimens}
    requires valueColumn in d.names <==> valueColumn in t.names
    ensures Relabeled(Reindex(d, [Key, valueColumn]), [Key, resultName]).rows[i]
      == KeyedRow(t.rows[i], valueColumn, resultName)
  {
    ReindexRelabel(d, valueColumn, resultName, i);
    assert valueColumn in t.names <==> valueColumn in t.rows[i];
  }

  /** The table the BVD and EHDV steps build from a stripped sheet: keyed by
      sample, reindexed to `[sample_id, valueColumn]` and relabeled
      `[sample_id, resultName]`. */
  function Keyed(t: Table, valueColumn: string, resultName: string): Table
    requires WellFormed(t) && Specimens in t.names && TextColumn(t, Specimens)
    requires valueColumn != Key && resultName != Key
  {
    Relabeled(Reindex(KeyedBy(t, Specimens), [Key, valueColumn]), [Key, resultName])
  }

  /** The keyed table has exactly the columns `[sample_id, resultName]`, and
      row i holds the identifier and the value cell of row i. */
  lemma KeyedSpec(t: Table, valueColumn: string, resultName: string)
    requires WellFormed(t) && Specimens in t.names && TextColumn(t, Specimens)
    requires valueColumn != Key && valueColumn != Specimens && resultName != Key
    ensures WellFormed(Keyed(t, valueColumn, resultName))
    ensures Keyed(t, valueColumn, resultName).names == [Key, resultName]
    ensures |Keyed(t, valueColumn, resultName).rows| == |t.rows|
    ensures forall i :: 0 <= i < |t.rows| ==>
      Keyed(t, valueColumn, resultName).rows[i] == KeyedRow(t.rows[i], valueColumn, resultName)
  {
    var d := KeyedBy(t, Specimens);
    KeyedBySpec(t, Specimens);
    assert Key in NameSet(d.names);
    assert valueColumn in NameSet(d.names) <==> valueColumn in NameSet(t.names);
    forall i | 0 <= i < |t.rows|
      ensures Keyed(t, valueColumn, resultName).rows[i] == KeyedRow(t.rows[i], valueColumn, resultName)
    {
      KeyedRowFrom(t, d, valueColumn, resultName, i);
    }
  }

  /** The steps the BVD and EHDV tables share: `get_sample_id` on the
      specimen column, `del` that column, `reindex(columns=[sample_id,
      valueColumn])` and rename the columns to `[sample_id, resultName]`.
      `df` is changed in place by the first two steps; the result is the new
      frame `reindex` builds. A missing specimen column raises `KeyError`, a
      specimen cell that is not a string `TypeError`. */
  method KeyedColumn(df: Frame, valueColumn: string, resultName: string) returns (r: Result<Frame>)
    requires df.Valid() && valueColumn != Key && resultName != Key
    modifies df
    ensures r.Ok? <==> (Specimens in old(df.names) && TextColumn(old(df.Value()), Specimens))
    ensures r.Err? ==> r.error == if Specimens in old(df.names) then TypeError else KeyError(Specimens)
    ensures r.Ok? ==> Specimens in old(df.names) && TextColumn(old(df.Value()), Specimens)
    ensures r.Ok? ==> fresh(r.value) && r.value.Valid()
    ensures r.Ok? ==> r.value.Value() == Keyed(old(df.Value()), valueColumn, resultName)
    ensures df.Valid()
    ensures r.Ok? ==> df.Value() == KeyedBy(old(df.Value()), Specimens)
    ensures r.Err? ==> df.Value() == old(df.Value())
  {
    var g := KeyBy(df, Specimens);
    if g.Err? {
      return Err(g.error);
    }
    var out := new Frame(Reindex(df.Value(), [Key, valueColumn]));
    var ok := out.Relabel([Key, resultName]);
    assert ok;
    return Ok(out);
  }

  // ---------------------------------------------------------------------------
  // The BVD titer tables
  // ---------------------------------------------------------------------------

  /** Every cell of `column` has a first word. */
  ghost predicate TrimmableColumn(t: Table, column: string)
    requires WellFormed(t) && column in t.names
  {
    forall i :: 0 <= i < |t.rows| ==> Trimmable(t.rows[i][column])
  }

  /** The frame the trimming `apply` leaves. Applying to no rows keeps the
      column's dtype; otherwise the strings make it an object column. */
  function Trimmed(t: Table, column: string): Table
    requires WellFormed(t) && column in t.names && TrimmableColumn(t, column)
  {
    WithColumn(t, column, if |t.rows| == 0 then t.dtypes[column] else Object,
               FirstWords(Column(t, column)).value)
  }

  /** `df.res = df.res.apply(lambda row: row.split()[0])`: every cell of the
      column becomes its first word, or the frame is left as it was and the
      error of the first rejected cell is returned. */
  method TrimResults(df: Frame, column: string) returns (r: Result<Frame>)
    requires df.Valid() && column in df.names
    modifies df
    ensures df.Valid()
    ensures r.Ok? <==> TrimmableColumn(old(df.Value()), column)
    ensures r.Err? ==> unchanged(df) && (r.error == AttributeError || r.error == IndexError)
    ensures r.Ok? ==> TrimmableColumn(old(df.Value()), column)
    ensures r.Ok? ==> r.value == df && df.Value() == Trimmed(old(df.Value()), column)
  {
    ghost var t := df.Value();
    var trimmed := FirstWords(Column(df.Value(), column));
    assert forall i :: 0 <= i < |t.rows| ==> Column(t, column)[i] == t.rows[i][column];
    if trimmed.Err? {
      return Err(trimmed.error);
    }
    df.Assign(column, if |df.rows| == 0 then df.dtypes[column] else Object, trimmed.value);
    return Ok(df);
  }

  /** What the BVD steps need of a sheet once it is stripped: a specimen
      column of strings, and a titer column whose cells all have a first word. */
  ghost predicate TiterOk(sheet: Table)
    requires WellFormed(sheet)
  {
    var s := StripTable(sheet);
    && Specimens in sheet.names
    && TextColumn(s, Specimens)
    && (sheet.rows == [] || (Titer in sheet.names && TrimmableColumn(s, Titer)))
  }

  /** One row of a BVD table: the specimen's identifier and the first word
      of its titer. */
  ghost function TiterRow(s: Row, resultName: string): (r: Row)
    requires Specimens in s && s[Specimens].Text?
    requires Titer in s && Trimmable(s[Titer])
    ensures resultName != Key ==> Key in r && r[Key] == Text(SampleIdOf(s[Specimens].s))
  {
    FirstWordBlank(s[Titer].s);
    map[Key := Text(SampleIdOf(s[Specimens].s)), resultName := Text(FirstWord(s[Titer].s).value)]
  }

  /** Row `i` of a BVD table: the identifier of the stripped sheet's row `i`
      and the first word of its titer. */
  ghost function TiterRowOf(sheet: Table, resultName: string, i: int): Row
    requires WellFormed(sheet) && resultName != Key && TiterOk(sheet) && 0 <= i < |sheet.rows|
  {
    var s := StripTable(sheet);
    assert Specimens in s.rows[i] && Titer in s.rows[i];
    TiterRow(s.rows[i], resultName)
  }

  /** Trimming the result cell of a keyed row gives the BVD row. */
  lemma TrimmedTiterRow(src: Row, resultName: string)
    requires Specimens in src && src[Specimens].Text?
    requires Titer in src && Trimmable(src[Titer]) && resultName != Key
    ensures var k := KeyedRow(src, Titer, resultName);
      FirstWord(k[resultName].s).Some? &&
      k[resultName := Text(FirstWord(k[resultName].s).value)] == TiterRow(src, resultName)
  {
    FirstWordBlank(src[Titer].s);
  }

  /** Once keyed, a BVD table trims without error exactly when the sheet
      meets `TiterOk`. */
  lemma KeyedTiterOk(sheet: Table, keyed: seq<Row>, resultName: string)
    requires WellFormed(sheet) && resultName != Key && Specimens in sheet.names
    requires TextColumn(StripTable(sheet), Specimens)
    requires |keyed| == |sheet.rows|
    requires forall i :: 0 <= i < |keyed| ==> keyed[i] == KeyedRow(StripTable(sheet).rows[i], Titer, resultName)
    ensures TiterOk(sheet) <==> forall i :: 0 <= i < |keyed| ==> resultName in keyed[i] && Trimmable(keyed[i][resultName])
  {
    var s := StripTable(sheet);
    forall i | 0 <= i < |keyed|
      ensures keyed[i][resultName] == if Titer in sheet.names then s.rows[i][Titer] else Missing
    {
      assert Titer in s.rows[i] <==> Titer in sheet.names;
    }
    if forall i :: 0 <= i < |keyed| ==> resultName in keyed[i] && Trimmable(keyed[i][resultName]) {
      if sheet.rows != [] {
        assert Trimmable(keyed[0][resultName]);
        forall i | 0 <= i < |s.rows|
          ensures Trimmable(s.rows[i][Titer])
        {
          assert Trimmable(keyed[i][resultName]);
        }
      }
    }
  }

  /** Row i of a trimmed frame: only the trimmed cell changes, to its first word. */
  lemma TrimmedRow(t: Table, column: string, i: int)
    requires WellFormed(t) && column in t.names && TrimmableColumn(t, column) && 0 <= i < |t.rows|
    ensures FirstWord(t.rows[i][column].s).Some?
    ensures Trimmed(t, column).rows[i] == t.rows[i][column := Text(FirstWord(t.rows[i][column].s).value)]
  {
    assert Column(t, column)[i] == t.rows[i][column];
    FirstWordBlank(t.rows[i][column].s);
  }

  /** The keyed BVD table of a sheet meeting `TiterOk` can be trimmed. */
  lemma KeyedTrimmable(sheet: Table, resultName: string)
    requires WellFormed(sheet) && resultName != Key && TiterOk(sheet)
    ensures WellFormed(Keyed(StripTable(sheet), Titer, resultName))
    ensures Keyed(StripTable(sheet), Titer, resultName).names == [Key, resultName]
    ensures TrimmableColumn(Keyed(StripTable(sheet), Titer, resultName), resultName)
  {
    var s := StripTable(sheet);
    KeyedSpec(s, Titer, resultName);
    KeyedTiterOk(sheet, Keyed(s, Titer, resultName).rows, resultName);
  }

  /** The BVD table `bison_etl` builds from a sheet: stripped, keyed with the
      titer column named `resultName`, and trimmed. */
  ghost function TiterOf(sheet: Table, resultName: string): Table
    requires WellFormed(sheet) && resultName != Key && TiterOk(sheet)
  {
    KeyedTrimmable(sheet, resultName);
    Trimmed(Keyed(StripTable(sheet), Titer, resultName), resultName)
  }

  /** A BVD table has exactly the columns `[sample_id, resultName]` and one
      row per sheet row. */
  lemma TiterOfShape(sheet: Table, resultName: string)
    requires WellFormed(sheet) && resultName != Key && TiterOk(sheet)
    ensures WellFormed(TiterOf(sheet, resultName))
    ensures TiterOf(sheet, resultName).names == [Key, resultName]
    ensures |TiterOf(sheet, resultName).rows| == |sheet.rows|
  {
    KeyedSpec(StripTable(sheet), Titer, resultName);
  }

  /** Row i of a BVD table holds the identifier of the sheet's row i and the
      first word of its titer. */
  lemma TiterOfRows(sheet: Table, resultName: string, i: int)
    requires WellFormed(sheet) && resultName != Key && TiterOk(sheet) && 0 <= i < |sheet.rows|
    ensures i < |TiterOf(sheet, resultName).rows|
    ensures TiterOf(sheet, resultName).rows[i] == TiterRow(StripTable(sheet).rows[i], resultName)
  {
    var s := StripTable(sheet);
    var k := Keyed(s, Titer, resultName);
    KeyedTrimmable(sheet, resultName);
    KeyedSpec(s, Titer, resultName);
    TrimmedRow(k, resultName, i);
    TrimmedTiterRow(s.rows[i], resultName);
  }

  /** The keys of a BVD table are the identifiers of the sheet's specimens. */
  lemma TiterOfKeys(sheet: Table, resultName: string)
    requires WellFormed(sheet) && resultName != Key && TiterOk(sheet)
    ensures KeysOf(TiterOf(sheet, resultName).rows) == IdsOf(StripTable(sheet).rows, Specimens)
  {
    var r := TiterOf(sheet, resultName);
    TiterOfShape(sheet, resultName);
    forall i | 0 <= i < |sheet.rows|
      ensures Key in r.rows[i] && Specimens in StripTable(sheet).rows[i]
      ensures r.rows[i][Key] == Text(SampleIdOf(StripTable(sheet).rows[i][Specimens].s))
    {
      TiterOfRows(sheet, resultName, i);
    }
    KeysOfIds(r.rows, StripTable(sheet).rows, Specimens);
  }

  /** The BVD steps of `bison_etl`: strip, key the titer column by sample
      and name it `resultName`, then keep the first word of each titer. A
      missing titer column becomes NaN, which has no `split`. */
  method TiterTable(sheet: Table, resultName: string) returns (r: Result<Table>)
    requires WellFormed(sheet) && resultName != Key
    ensures r.Ok? <==> Strippable(sheet) && TiterOk(sheet)
    ensures !Strippable(sheet) ==> r == Err(AttributeError)
    ensures r.Err? && Strippable(sheet) && Specimens !in sheet.names ==> r.error == KeyError(Specimens)
    ensures r.Err? && Strippable(sheet) && Specimens in sheet.names && !TextColumn(StripTable(sheet), Specimens) ==>
      r.error == TypeError
    ensures r.Err? ==> r.error in {KeyError(Specimens), TypeError, AttributeError, IndexError}
    ensures r.Ok? ==> TiterOk(sheet) && r.value == TiterOf(sheet, resultName)
  {
    var df := new Frame(sheet);
    var stripped := PandaStripper(df);
    if stripped.Err? {
      return Err(stripped.error);
    }
    var k := KeyedColumn(df, Titer, resultName);
    if k.Err? {
      return Err(k.error);
    }
    df := k.value;
    ghost var s := StripTable(sheet);
    KeyedSpec(s, Titer, resultName);
    KeyedTiterOk(sheet, df.rows, resultName);
    var t := TrimResults(df, resultName);
    if t.Err? {
      return Err(t.error);
    }
    return Ok(df.Value());
  }

  // ---------------------------------------------------------------------------
  // The EHDV table
  // ---------------------------------------------------------------------------

  /** The stripped EHDV rows left once the `:: Serum` rows are dropped. */
  ghost function EhdvKept(sheet: Table): (kept: seq<Row>)
    requires WellFormed(sheet)
    ensures forall i :: 0 <= i < |kept| ==> kept[i].Keys == NameSet(sheet.names)
  {
    DropWhere(StripTable(sheet), Specimens, SerumRow).rows
  }

  /** What the EHDV steps need of a sheet once it is stripped: a specimen
      column whose kept cells are strings. */
  ghost predicate EhdvOk(sheet: Table)
    requires WellFormed(sheet)
  {
    Specimens in sheet.names && TextColumn(DropWhere(StripTable(sheet), Specimens, SerumRow), Specimens)
  }

  /** The EHDV table `bison_etl` builds: the kept rows keyed with the
      `Result` column named `ehdv_result`. */
  ghost function EhdvOf(sheet: Table): Table
    requires WellFormed(sheet) && EhdvOk(sheet)
  {
    Keyed(DropWhere(StripTable(sheet), Specimens, SerumRow), EhdvResult, "ehdv_result")
  }

  /** Row `i` of the EHDV table: the `i`-th kept row's identifier and its
      `Result` cell, NaN where the sheet has no `Result` column. */
  ghost function EhdvRow(sheet: Table, i: int): Row
    requires WellFormed(sheet) && EhdvOk(sheet) && 0 <= i < |EhdvKept(sheet)|
  {
    assert EhdvKept(sheet)[i][Specimens] == DropWhere(StripTable(sheet), Specimens, SerumRow).rows[i][Specimens];
    KeyedRow(EhdvKept(sheet)[i], EhdvResult, "ehdv_result")
  }

  /** The EHDV table has exactly `[sample_id, ehdv_result]`, one row per
      kept row and in the same order, and the kept rows' identifiers as keys. */
  lemma EhdvOfSpec(sheet: Table)
    requires WellFormed(sheet) && EhdvOk(sheet)
    ensures WellFormed(EhdvOf(sheet)) && EhdvOf(sheet).names == [Key, "ehdv_result"]
    ensures |EhdvOf(sheet).rows| == |EhdvKept(sheet)|
    ensures forall i :: 0 <= i < |EhdvKept(sheet)| ==>
      EhdvOf(sheet).rows[i] == KeyedRow(EhdvKept(sheet)[i], EhdvResult, "ehdv_result")
    ensures KeysOf(EhdvOf(sheet).rows) == IdsOf(EhdvKept(sheet), Specimens)
  {
    KeyedSpec(DropWhere(StripTable(sheet), Specimens, SerumRow), EhdvResult, "ehdv_result");
    KeysOfIds(EhdvOf(sheet).rows, EhdvKept(sheet), Specimens);
  }

  /** No EHDV row comes from a `:: Serum` row, and every other stripped row
      is kept; the kept and dropped rows add up to the sheet. */
  lemma EhdvKeptRows(sheet: Table)
    requires WellFormed(sheet)
    ensures forall x :: x in EhdvKept(sheet) <==>
      x in StripTable(sheet).rows && !CellIs(x, Specimens, SerumRow)
    ensures |EhdvKept(sheet)| + CountIs(StripTable(sheet).rows, Specimens, SerumRow) == |sheet.rows|
  {
    DropRowsCount(StripTable(sheet).rows, Specimens, SerumRow);
  }

  /** The EHDV steps of `bison_etl`: strip, drop the rows whose specimen is
      `:: Serum`, key the `Result` column by sample and name it
      `ehdv_result`. Selecting the specimen column raises `KeyError` when it
      is missing; a kept specimen that is not a string raises `TypeError`. */
  method EhdvTable(sheet: Table) returns (r: Result<Table>)
    requires WellFormed(sheet)
    ensures r.Ok? <==> Strippable(sheet) && EhdvOk(sheet)
    ensures r.Err? ==> r.error == if !Strippable(sheet) then AttributeError
                                  else if Specimens in sheet.names then TypeError else KeyError(Specimens)
    ensures r.Ok? ==> EhdvOk(sheet) && r.value == EhdvOf(sheet)
  {
    var df := new Frame(sheet);
    var stripped := PandaStripper(df);
    if stripped.Err? {
      return Err(stripped.error);
    }
    if Specimens !in df.names {
      return Err(KeyError(Specimens));
    }
    df := new Frame(DropWhere(df.Value(), Specimens, SerumRow));
    var k := KeyedColumn(df, EhdvResult, "ehdv_result");
    if k.Err? {
      return Err(k.error);
    }
    return Ok(k.value.Value());
  }

  // ---------------------------------------------------------------------------
  // The bluetongue and pregnancy table
  // ---------------------------------------------------------------------------

  /** What the bluetongue steps need of a sheet once it is stripped: four
      columns, the first of strings. */
  ghost predicate BluetongueOk(sheet: Table)
    requires WellFormed(sheet)
  {
    |sheet.names| == |BluetongueNames| && TextColumn(StripTable(sheet), sheet.names[0])
  }

  /** The four columns of the sheet under their new names. */
  lemma BluetongueRenamed(s: Table, renamed: Table)
    requires WellFormed(s) && |s.names| == |BluetongueNames|
    requires renamed == Relabeled(s, BluetongueNames)
    ensures |renamed.rows| == |s.rows|
    ensures forall i :: 0 <= i < |renamed.rows| ==> renamed.rows[i].Keys == NameSet(BluetongueNames)
    ensures forall i :: 0 <= i < |renamed.rows| ==>
      forall j :: 0 <= j < |BluetongueNames| ==> renamed.rows[i][BluetongueNames[j]] == s.rows[i][s.names[j]]
    ensures forall i :: 0 <= i < |renamed.rows| ==> renamed.rows[i]["animal"] == s.rows[i][s.names[0]]
  {
    assert BluetongueNames[0] == "animal";
  }

  /** The renamed sheet can be keyed by `animal` exactly when the sheet's
      first column holds only strings once stripped. */
  lemma BluetongueKeyable(sheet: Table, renamed: Table)
    requires WellFormed(sheet) && |sheet.names| == |BluetongueNames|
    requires renamed == Relabeled(StripTable(sheet), BluetongueNames)
    ensures "animal" in renamed.names
    ensures TextColumn(renamed, "animal") <==> TextColumn(StripTable(sheet), sheet.names[0])
  {
    BluetongueRenamed(StripTable(sheet), renamed);
    assert renamed.names[0] == "animal";
  }

  /** The bluetongue table `bison_etl` builds: the stripped sheet renamed,
      keyed by `animal`, with `animal` dropped. */
  ghost function BluetongueOf(sheet: Table): Table
    requires WellFormed(sheet) && BluetongueOk(sheet)
  {
    var renamed := Relabeled(StripTable(sheet), BluetongueNames);
    BluetongueRenamed(StripTable(sheet), renamed);
    KeyedBy(renamed, "animal")
  }

  /** One row of the bluetongue table: the animal's identifier and the
      three other cells, under their new names. */
  ghost function BluetongueRow(src: Row, names: seq<string>): (r: Row)
    requires |names| == |BluetongueNames| && NameSet(names) <= src.Keys
    requires src[names[0]].Text?
    ensures Key in r && r[Key] == Text(SampleIdOf(src[names[0]].s))
  {
    map["preg_val" := src[names[1]], "preg_result" := src[names[2]],
        "bluetongue_result" := src[names[3]], Key := Text(SampleIdOf(src[names[0]].s))]
  }

  /** A bluetongue row, from the stripped sheet row `src` renamed to
      `BluetongueNames` and then keyed by the `animal` cell. */
  lemma BluetongueRowFrom(row: Row, out: Row, src: Row, names: seq<string>)
    requires |names| == |BluetongueNames| && NameSet(names) <= src.Keys
    requires row.Keys == NameSet(BluetongueNames)
    requires forall j :: 0 <= j < |BluetongueNames| ==> row[BluetongueNames[j]] == src[names[j]]
    requires row["animal"].Text?
    requires out == row[Key := Text(SampleIdOf(row["animal"].s))] - {"animal"}
    ensures src[names[0]].Text?
    ensures out == BluetongueRow(src, names)
  {
    var labels := BluetongueNames;
    assert row[labels[0]] == src[names[0]];
    assert row[labels[1]] == src[names[1]];
    assert row[labels[2]] == src[names[2]];
    assert row[labels[3]] == src[names[3]];
    assert NameSet(labels) == {"animal", "preg_val", "preg_result", "bluetongue_result"} by {
      assert forall c :: c in labels <==> c == labels[0] || c == labels[1] || c == labels[2] || c == labels[3];
    }
  }

  /** The bluetongue table has the three renamed value columns followed by
      `sample_id`, and one row per sheet row. */
  lemma BluetongueOfShape(sheet: Table)
    requires WellFormed(sheet) && BluetongueOk(sheet)
    ensures WellFormed(BluetongueOf(sheet))
    ensures BluetongueOf(sheet).names == ["preg_val", "preg_result", "bluetongue_result", Key]
    ensures |BluetongueOf(sheet).rows| == |sheet.rows|
  {
    var s := StripTable(sheet);
    var renamed := Relabeled(s, BluetongueNames);
    BluetongueRenamed(s, renamed);
    KeyedBySpec(renamed, "animal");
    BluetongueLabels();
  }

  /** Dropping `animal` after `sample_id` is appended to the four new labels. */
  lemma BluetongueLabels()
    ensures Key !in BluetongueNames
    ensures Without(BluetongueNames + [Key], "animal") == ["preg_val", "preg_result", "bluetongue_result", Key]
  {
    var rest := ["preg_val", "preg_result", "bluetongue_result", Key];
    assert BluetongueNames + [Key] == ["animal"] + rest;
    assert "animal" !in rest;
  }

  /** Row i of the bluetongue table comes from the sheet's row i. */
  lemma BluetongueOfRows(sheet: Table, i: int)
    requires WellFormed(sheet) && BluetongueOk(sheet) && 0 <= i < |sheet.rows|
    ensures i < |BluetongueOf(sheet).rows|
    ensures BluetongueOf(sheet).rows[i] == BluetongueRow(StripTable(sheet).rows[i], sheet.names)
  {
    var s := StripTable(sheet);
    var renamed := Relabeled(s, BluetongueNames);
    BluetongueRenamed(s, renamed);
    KeyedBySpec(renamed, "animal");
    BluetongueRowFrom(renamed.rows[i], BluetongueOf(sheet).rows[i], s.rows[i], sheet.names);
  }

  /** The keys of the bluetongue table are the identifiers of the sheet's
      first column. */
  lemma BluetongueOfKeys(sheet: Table)
    requires WellFormed(sheet) && BluetongueOk(sheet)
    ensures KeysOf(BluetongueOf(sheet).rows) == IdsOf(StripTable(sheet).rows, sheet.names[0])
  {
    var r := BluetongueOf(sheet);
    BluetongueOfShape(sheet);
    forall i | 0 <= i < |sheet.rows|
      ensures Key in r.rows[i] && sheet.names[0] in StripTable(sheet).rows[i]
      ensures r.rows[i][Key] == Text(SampleIdOf(StripTable(sheet).rows[i][sheet.names[0]].s))
    {
      BluetongueOfRows(sheet, i);
    }
    KeysOfIds(r.rows, StripTable(sheet).rows, sheet.names[0]);
  }

  /** The bluetongue steps of `bison_etl`: strip, name the four columns,
      `get_sample_id` on `animal`, then drop `animal`. A sheet without four
      columns makes the renaming raise; an animal cell that is not a string
      makes `get_sample_id` raise `TypeError`. */
  method BluetongueTable(sheet: Table) returns (r: Result<Table>)
    requires WellFormed(sheet)
    ensures r.Ok? <==> Strippable(sheet) && BluetongueOk(sheet)
    ensures r.Err? ==> r.error == (if !Strippable(sheet) then AttributeError
                                   else if |sheet.names| == |BluetongueNames| then TypeError
                                   else LengthMismatch(|BluetongueNames|, |sheet.names|))
    ensures r.Ok? ==> BluetongueOk(sheet) && r.value == BluetongueOf(sheet)
  {
    var df := new Frame(sheet);
    var stripped := PandaStripper(df);
    if stripped.Err? {
      return Err(stripped.error);
    }
    var ok := df.Relabel(BluetongueNames);
    if !ok {
      return Err(LengthMismatch(|BluetongueNames|, |sheet.names|));
    }
    BluetongueKeyable(sheet, df.Value());
    var g := KeyBy(df, "animal");
    if g.Err? {
      return Err(g.error);
    }
    return Ok(df.Value());
  }

  // ---------------------------------------------------------------------------
  // bison_etl: the registry with every per-test table merged into it
  // ---------------------------------------------------------------------------

  /** The sheets `bison_etl` can turn into a table without raising. */
  ghost predicate BisonOk(sample: Table, bvd1: Table, bvd2: Table, ehdv: Table, bluetongue: Table)
    requires WellFormed(sample) && WellFormed(bvd1) && WellFormed(bvd2)
    requires WellFormed(ehdv) && WellFormed(bluetongue)
  {
    |sample.names| == |RegistryNames| && Strippable(sample) && TestsOk(bvd1, bvd2, ehdv, bluetongue)
  }

  /** The four test sheets each build their table without raising. */
  ghost predicate TestsOk(bvd1: Table, bvd2: Table, ehdv: Table, bluetongue: Table)
    requires WellFormed(bvd1) && WellFormed(bvd2) && WellFormed(ehdv) && WellFormed(bluetongue)
  {
    && Strippable(bvd1) && TiterOk(bvd1)
    && Strippable(bvd2) && TiterOk(bvd2)
    && Strippable(ehdv) && EhdvOk(ehdv)
    && Strippable(bluetongue) && BluetongueOk(bluetongue)
  }

  /** The four per-test tables, in the order they are merged. */
  ghost function TestTables(bvd1: Table, bvd2: Table, ehdv: Table, bluetongue: Table): seq<Table>
    requires WellFormed(bvd1) && WellFormed(bvd2) && WellFormed(ehdv) && WellFormed(bluetongue)
    requires TiterOk(bvd1) && TiterOk(bvd2) && EhdvOk(ehdv) && BluetongueOk(bluetongue)
  {
    [TiterOf(bvd1, "bvd_type1_result"), TiterOf(bvd2, "bvd_type2_result"), EhdvOf(ehdv), BluetongueOf(bluetongue)]
  }

  /** Each per-test table carries `sample_id`, and together they add the
      six result columns, in merge order. */
  lemma TestTablesShape(bvd1: Table, bvd2: Table, ehdv: Table, bluetongue: Table)
    requires WellFormed(bvd1) && WellFormed(bvd2) && WellFormed(ehdv) && WellFormed(bluetongue)
    requires TiterOk(bvd1) && TiterOk(bvd2) && EhdvOk(ehdv) && BluetongueOk(bluetongue)
    ensures var ts := TestTables(bvd1, bvd2, ehdv, bluetongue);
      forall n :: 0 <= n < |ts| ==> WellFormed(ts[n]) && Key in ts[n].names
    ensures AddedNames(TestTables(bvd1, bvd2, ehdv, bluetongue)) == ResultNames
  {
    TiterOfShape(bvd1, "bvd_type1_result");
    TiterOfShape(bvd2, "bvd_type2_result");
    EhdvOfSpec(ehdv);
    BluetongueOfShape(bluetongue);
    ResultTables(TiterOf(bvd1, "bvd_type1_result"), TiterOf(bvd2, "bvd_type2_result"),
                 EhdvOf(ehdv), BluetongueOf(bluetongue));
  }

  /** Four tables shaped like the per-test tables add the result columns. */
  lemma ResultTables(a: Table, b: Table, c: Table, d: Table)
    requires WellFormed(a) && WellFormed(b) && WellFormed(c) && WellFormed(d)
    requires a.names == [Key, "bvd_type1_result"] && b.names == [Key, "bvd_type2_result"]
    requires c.names == [Key, "ehdv_result"]
    requires d.names == ["preg_val", "preg_result", "bluetongue_result", Key]
    ensures forall n :: 0 <= n < 4 ==> WellFormed([a, b, c, d][n]) && Key in [a, b, c, d][n].names
    ensures AddedNames([a, b, c, d]) == ResultNames
  {
    FoldFourNames(a, b, c, d);
    ResultLabels(a.names, b.names, c.names, d.names);
  }

  /** The result labels, one per per-test column. */
  lemma ResultLabels(a: seq<string>, b: seq<string>, c: seq<string>, d: seq<string>)
    requires a == [Key, "bvd_type1_result"] && b == [Key, "bvd_type2_result"] && c == [Key, "ehdv_result"]
    requires d == ["preg_val", "preg_result", "bluetongue_result", Key]
    ensures Without(a, Key) + (Without(b, Key) + (Without(c, Key) + Without(d, Key))) == ResultNames
  {
    KeyedLabels("bvd_type1_result", "bvd_type2_result", "ehdv_result",
                "preg_val", "preg_result", "bluetongue_result");
  }

  /** Three key-then-result pairs and one table with its key last add their
      non-key labels in order. */
  lemma KeyedLabels(x1: string, x2: string, x3: string, y1: string, y2: string, y3: string)
    requires x1 != Key && x2 != Key && x3 != Key && y1 != Key && y2 != Key && y3 != Key
    ensures Without([Key, x1], Key) + (Without([Key, x2], Key) + (Without([Key, x3], Key)
      + Without([y1, y2, y3, Key], Key))) == [x1, x2, x3, y1, y2, y3]
  {
    WithoutFirst(x1);
    WithoutFirst(x2);
    WithoutFirst(x3);
    assert [y1, y2, y3, Key] == [y1, y2, y3] + [Key];
    WithoutLast([y1, y2, y3]);
  }

  /** Dropping the key from a key-then-result pair leaves the result label. */
  lemma WithoutFirst(x: string)
    requires x != Key
    ensures Without([Key, x], Key) == [x]
  {
    assert [Key, x][1..] == [x];
  }

  /** Appending a label and dropping it again gives back the labels. */
  lemma {:induction false} WithoutLast(names: seq<string>)
    requires Key !in names
    ensures Without(names + [Key], Key) == names
  {
    if names != [] {
      assert (names + [Key])[1..] == names[1..] + [Key];
      WithoutLast(names[1..]);
    }
  }

  /** No label occurs twice among the merged table's columns. */
  lemma BisonNamesDistinct()
    ensures Distinct(BisonNames)
  {
  }

  /** Every merge of `bison_etl` succeeds without suffixing. */
  lemma BisonFoldReady(sample: Table, bvd1: Table, bvd2: Table, ehdv: Table, bluetongue: Table)
    requires WellFormed(sample) && WellFormed(bvd1) && WellFormed(bvd2)
    requires WellFormed(ehdv) && WellFormed(bluetongue)
    requires BisonOk(sample, bvd1, bvd2, ehdv, bluetongue)
    ensures FoldReady(RegistryOf(sample), TestTables(bvd1, bvd2, ehdv, bluetongue))
  {
    TestsFoldReady(RegistryOf(sample), bvd1, bvd2, ehdv, bluetongue);
  }

  lemma TestsFoldReady(base: Table, bvd1: Table, bvd2: Table, ehdv: Table, bluetongue: Table)
    requires WellFormed(base) && base.names == RegistryNames
    requires WellFormed(bvd1) && WellFormed(bvd2) && WellFormed(ehdv) && WellFormed(bluetongue)
    requires TestsOk(bvd1, bvd2, ehdv, bluetongue)
    ensures FoldReady(base, TestTables(bvd1, bvd2, ehdv, bluetongue))
  {
    TestTablesShape(bvd1, bvd2, ehdv, bluetongue);
    BisonNamesDistinct();
    assert Key == RegistryNames[0];
    FoldReadyDistinct(base, TestTables(bvd1, bvd2, ehdv, bluetongue));
  }

  /** The table `bison_etl` writes out: the registry merged with the BVD
      type 1, BVD type 2, EHDV and bluetongue tables, in that order. */
  ghost function BisonOf(sample: Table, bvd1: Table, bvd2: Table, ehdv: Table, bluetongue: Table): Table
    requires WellFormed(sample) && WellFormed(bvd1) && WellFormed(bvd2)
    requires WellFormed(ehdv) && WellFormed(bluetongue)
    requires BisonOk(sample, bvd1, bvd2, ehdv, bluetongue)
  {
    BisonFoldReady(sample, bvd1, bvd2, ehdv, bluetongue);
    MergeAll(RegistryOf(sample), TestTables(bvd1, bvd2, ehdv, bluetongue))
  }

  /** The merged table has the six registry columns followed by the six
      result columns. */
  lemma BisonColumns(sample: Table, bvd1: Table, bvd2: Table, ehdv: Table, bluetongue: Table)
    requires WellFormed(sample) && WellFormed(bvd1) && WellFormed(bvd2)
    requires WellFormed(ehdv) && WellFormed(bluetongue)
    requires BisonOk(sample, bvd1, bvd2, ehdv, bluetongue)
    ensures BisonOf(sample, bvd1, bvd2, ehdv, bluetongue).names == BisonNames
  {
    BisonFoldReady(sample, bvd1, bvd2, ehdv, bluetongue);
    TestTablesShape(bvd1, bvd2, ehdv, bluetongue);
    MergeAllNames(RegistryOf(sample), TestTables(bvd1, bvd2, ehdv, bluetongue));
  }

  /** The merged table's keys are the registry's and every identifier
      extracted from the four test sheets. */
  lemma BisonKeys(sample: Table, bvd1: Table, bvd2: Table, ehdv: Table, bluetongue: Table)
    requires WellFormed(sample) && WellFormed(bvd1) && WellFormed(bvd2)
    requires WellFormed(ehdv) && WellFormed(bluetongue)
    requires BisonOk(sample, bvd1, bvd2, ehdv, bluetongue)
    ensures KeysOf(BisonOf(sample, bvd1, bvd2, ehdv, bluetongue).rows) ==
      KeysOf(RegistryOf(sample).rows)
      + (IdsOf(StripTable(bvd1).rows, Specimens)
         + IdsOf(StripTable(bvd2).rows, Specimens)
         + IdsOf(EhdvKept(ehdv), Specimens)
         + IdsOf(StripTable(bluetongue).rows, bluetongue.names[0]))
  {
    var a, b := TiterOf(bvd1, "bvd_type1_result"), TiterOf(bvd2, "bvd_type2_result");
    var c, d := EhdvOf(ehdv), BluetongueOf(bluetongue);
    BisonFoldReady(sample, bvd1, bvd2, ehdv, bluetongue);
    assert TestTables(bvd1, bvd2, ehdv, bluetongue) == [a, b, c, d];
    MergeAllKeys(RegistryOf(sample), [a, b, c, d]);
    FoldFourKeys(a, b, c, d);
    TiterOfKeys(bvd1, "bvd_type1_result");
    TiterOfKeys(bvd2, "bvd_type2_result");
    EhdvOfSpec(ehdv);
    BluetongueOfKeys(bluetongue);
  }

  /** No registry row is lost: each one's cells all appear in some merged row. */
  lemma BisonKeepsRegistry(sample: Table, bvd1: Table, bvd2: Table, ehdv: Table, bluetongue: Table, i: int)
    returns (o: Row)
    requires WellFormed(sample) && WellFormed(bvd1) && WellFormed(bvd2)
    requires WellFormed(ehdv) && WellFormed(bluetongue)
    requires BisonOk(sample, bvd1, bvd2, ehdv, bluetongue) && 0 <= i < |sample.rows|
    ensures |BisonOf(sample, bvd1, bvd2, ehdv, bluetongue).rows| >= |sample.rows|
    ensures o in BisonOf(sample, bvd1, bvd2, ehdv, bluetongue).rows
    ensures Extends(o, RegistryOf(sample).rows[i])
  {
    BisonFoldReady(sample, bvd1, bvd2, ehdv, bluetongue);
    MergeAllNeverShrinks(RegistryOf(sample), TestTables(bvd1, bvd2, ehdv, bluetongue));
    o := MergeAllKeepsBaseRow(RegistryOf(sample), TestTables(bvd1, bvd2, ehdv, bluetongue), i);
  }

  /** No result is lost: each BVD type 1 row appears in some merged row. */
  lemma BisonKeepsBvd1(sample: Table, bvd1: Table, bvd2: Table, ehdv: Table, bluetongue: Table, i: int)
    returns (o: Row)
    requires WellFormed(sample) && WellFormed(bvd1) && WellFormed(bvd2)
    requires WellFormed(ehdv) && WellFormed(bluetongue)
    requires BisonOk(sample, bvd1, bvd2, ehdv, bluetongue) && 0 <= i < |bvd1.rows|
    ensures o in BisonOf(sample, bvd1, bvd2, ehdv, bluetongue).rows
    ensures Extends(o, TiterRowOf(bvd1, "bvd_type1_result", i))
  {
    TiterOfRows(bvd1, "bvd_type1_result", i);
    assert TestTables(bvd1, bvd2, ehdv, bluetongue)[0] == TiterOf(bvd1, "bvd_type1_result");
    o := BisonKeepsTest(sample, bvd1, bvd2, ehdv, bluetongue, 0, i);
  }

  /** Each BVD type 2 row appears in some merged row. */
  lemma BisonKeepsBvd2(sample: Table, bvd1: Table, bvd2: Table, ehdv: Table, bluetongue: Table, i: int)
    returns (o: Row)
    requires WellFormed(sample) && WellFormed(bvd1) && WellFormed(bvd2)
    requires WellFormed(ehdv) && WellFormed(bluetongue)
    requires BisonOk(sample, bvd1, bvd2, ehdv, bluetongue) && 0 <= i < |bvd2.rows|
    ensures o in BisonOf(sample, bvd1, bvd2, ehdv, bluetongue).rows
    ensures Extends(o, TiterRowOf(bvd2, "bvd_type2_result", i))
  {
    TiterOfRows(bvd2, "bvd_type2_result", i);
    assert TestTables(bvd1, bvd2, ehdv, bluetongue)[1] == TiterOf(bvd2, "bvd_type2_result");
    o := BisonKeepsTest(sample, bvd1, bvd2, ehdv, bluetongue, 1, i);
  }

  /** Every row of the `n`-th per-test table appears in some merged row. */
  lemma BisonKeepsTest(sample: Table, bvd1: Table, bvd2: Table, ehdv: Table, bluetongue: Table, n: int, i: int)
    returns (o: Row)
    requires WellFormed(sample) && WellFormed(bvd1) && WellFormed(bvd2)
    requires WellFormed(ehdv) && WellFormed(bluetongue)
    requires BisonOk(sample, bvd1, bvd2, ehdv, bluetongue)
    requires 0 <= n < 4 && 0 <= i < |TestTables(bvd1, bvd2, ehdv, bluetongue)[n].rows|
    ensures o in BisonOf(sample, bvd1, bvd2, ehdv, bluetongue).rows
    ensures Extends(o, TestTables(bvd1, bvd2, ehdv, bluetongue)[n].rows[i])
  {
    BisonFoldReady(sample, bvd1, bvd2, ehdv, bluetongue);
    o := MergeAllKeepsTableRow(RegistryOf(sample), TestTables(bvd1, bvd2, ehdv, bluetongue), n, i);
  }

  /** Each kept EHDV row appears in some merged row. */
  lemma BisonKeepsEhdv(sample: Table, bvd1: Table, bvd2: Table, ehdv: Table, bluetongue: Table, i: int)
    returns (o: Row)
    requires WellFormed(sample) && WellFormed(bvd1) && WellFormed(bvd2)
    requires WellFormed(ehdv) && WellFormed(bluetongue)
    requires BisonOk(sample, bvd1, bvd2, ehdv, bluetongue) && 0 <= i < |EhdvKept(ehdv)|
    ensures o in BisonOf(sample, bvd1, bvd2, ehdv, bluetongue).rows
    ensures Extends(o, EhdvRow(ehdv, i))
  {
    EhdvOfSpec(ehdv);
    assert TestTables(bvd1, bvd2, ehdv, bluetongue)[2] == EhdvOf(ehdv);
    o := BisonKeepsTest(sample, bvd1, bvd2, ehdv, bluetongue, 2, i);
  }

  /** Each bluetongue row appears in some merged row. */
  lemma BisonKeepsBluetongue(sample: Table, bvd1: Table, bvd2: Table, ehdv: Table, bluetongue: Table, i: int)
    returns (o: Row)
    requires WellFormed(sample) && WellFormed(bvd1) && WellFormed(bvd2)
    requires WellFormed(ehdv) && WellFormed(bluetongue)
    requires BisonOk(sample, bvd1, bvd2, ehdv, bluetongue) && 0 <= i < |bluetongue.rows|
    ensures o in BisonOf(sample, bvd1, bvd2, ehdv, bluetongue).rows
    ensures Extends(o, BluetongueRow(StripTable(bluetongue).rows[i], bluetongue.names))
  {
    BluetongueOfRows(bluetongue, i);
    assert TestTables(bvd1, bvd2, ehdv, bluetongue)[3] == BluetongueOf(bluetongue);
    o := BisonKeepsTest(sample, bvd1, bvd2, ehdv, bluetongue, 3, i);
  }

  /** Folding the four per-test tables into a registry table is joining
      them into it one after the other. */
  lemma TestsJoins(base: Table, bvd1: Table, bvd2: Table, ehdv: Table, bluetongue: Table)
    requires WellFormed(base) && base.names == RegistryNames
    requires WellFormed(bvd1) && WellFormed(bvd2) && WellFormed(ehdv) && WellFormed(bluetongue)
    requires TestsOk(bvd1, bvd2, ehdv, bluetongue)
    ensures var a, b := TiterOf(bvd1, "bvd_type1_result"), TiterOf(bvd2, "bvd_type2_result");
      var c, d := EhdvOf(ehdv), BluetongueOf(bluetongue);
      && FoldReady(base, TestTables(bvd1, bvd2, ehdv, bluetongue))
      && JoinReady(base, a) && JoinReady(Join(base, a), b)
      && JoinReady(Join(Join(base, a), b), c) && JoinReady(Join(Join(Join(base, a), b), c), d)
      && MergeAll(base, TestTables(bvd1, bvd2, ehdv, bluetongue)) == Join(Join(Join(Join(base, a), b), c), d)
  {
    var a, b := TiterOf(bvd1, "bvd_type1_result"), TiterOf(bvd2, "bvd_type2_result");
    var c, d := EhdvOf(ehdv), BluetongueOf(bluetongue);
    TestsFoldReady(base, bvd1, bvd2, ehdv, bluetongue);
    assert TestTables(bvd1, bvd2, ehdv, bluetongue) == [a, b, c, d];
    MergeAllFour(base, a, b, c, d);
  }

  /** The BVD lines of `bison_etl` for one sheet: build the titer table and
      merge it into `table`, which does not yet have the result column. */
  method MergeTiter(table: Table, sheet: Table, ghost k: nat, resultName: string) returns (r: Result<Table>)
    requires WellFormed(table) && WellFormed(sheet)
    requires k < |ResultNames| && table.names == Labels(k) && resultName == ResultNames[k]
    ensures r.Ok? <==> Strippable(sheet) && TiterOk(sheet)
    ensures r.Err? ==> r.error in {KeyError(Specimens), TypeError, AttributeError, IndexError}
    ensures r.Ok? ==> TiterOk(sheet) && JoinReady(table, TiterOf(sheet, resultName))
    ensures r.Ok? ==> r.value == Join(table, TiterOf(sheet, resultName))
    ensures r.Ok? ==> r.value.names == table.names + [resultName] && WellFormed(r.value)
  {
    FreshLabel(k, k);
    var t := TiterTable(sheet, resultName);
    if t.Err? {
      return Err(t.error);
    }
    TiterOfShape(sheet, resultName);
    PairJoin(table, t.value, k);
    var m := Merge(table, t.value);
    return Ok(m.value);
  }

  /** A `[sample_id, result]` table merges into the table that has the
      first `k` result columns, and the result has the first `k + 1`. */
  lemma PairJoin(table: Table, t: Table, k: nat)
    requires WellFormed(table) && WellFormed(t) && k < |ResultNames| && table.names == Labels(k)
    requires t.names == [Key, ResultNames[k]]
    ensures JoinReady(table, t) && Join(table, t).names == table.names + [ResultNames[k]]
  {
    FreshLabel(k, k);
    WithoutFirst(ResultNames[k]);
  }

  /** The EHDV lines of `bison_etl`: build the EHDV table and merge it into
      `table`, which does not yet have `ehdv_result`. */
  method MergeEhdv(table: Table, sheet: Table) returns (r: Result<Table>)
    requires WellFormed(table) && WellFormed(sheet) && table.names == Labels(2)
    ensures r.Ok? <==> Strippable(sheet) && EhdvOk(sheet)
    ensures r.Err? ==> r.error == if !Strippable(sheet) then AttributeError
                                  else if Specimens in sheet.names then TypeError else KeyError(Specimens)
    ensures r.Ok? ==> EhdvOk(sheet) && JoinReady(table, EhdvOf(sheet))
    ensures r.Ok? ==> r.value == Join(table, EhdvOf(sheet))
    ensures r.Ok? ==> r.value.names == Labels(3) && WellFormed(r.value)
  {
    var t := EhdvTable(sheet);
    if t.Err? {
      return Err(t.error);
    }
    EhdvOfSpec(sheet);
    ResultNamesAre();
    PairJoin(table, t.value, 2);
    NextLabel(2, 3);
    var m := Merge(table, t.value);
    return Ok(m.value);
  }

  /** The bluetongue lines of `bison_etl`: build the bluetongue table and
      merge it into `table`, which has none of its three value columns. */
  method MergeBluetongue(table: Table, sheet: Table) returns (r: Result<Table>)
    requires WellFormed(table) && WellFormed(sheet) && table.names == Labels(3)
    ensures r.Ok? <==> Strippable(sheet) && BluetongueOk(sheet)
    ensures r.Err? ==> r.error == (if !Strippable(sheet) then AttributeError
                                   else if |sheet.names| == |BluetongueNames| then TypeError
                                   else LengthMismatch(|BluetongueNames|, |sheet.names|))
    ensures r.Ok? ==> BluetongueOk(sheet) && JoinReady(table, BluetongueOf(sheet))
    ensures r.Ok? ==> r.value == Join(table, BluetongueOf(sheet))
  {
    var t := BluetongueTable(sheet);
    if t.Err? {
      return Err(t.error);
    }
    BluetongueOfShape(sheet);
    LastJoin(table, t.value);
    var m := Merge(table, t.value);
    return Ok(m.value);
  }

  /** The bluetongue table merges into the table that has the first three
      result columns. */
  lemma LastJoin(table: Table, t: Table)
    requires WellFormed(table) && WellFormed(t) && table.names == Labels(3)
    requires t.names == ["preg_val", "preg_result", "bluetongue_result", Key]
    ensures JoinReady(table, t)
  {
    FreshLabel(3, 3);
    FreshLabel(3, 4);
    FreshLabel(3, 5);
    ResultNamesAre();
  }

  /** The columns of the merged table once the first `k` result tables are in. */
  ghost function Labels(k: nat): seq<string>
    requires k <= |ResultNames|
  {
    RegistryNames + ResultNames[..k]
  }

  lemma ResultNamesAre()
    ensures ResultNames[0] == "bvd_type1_result" && ResultNames[1] == "bvd_type2_result"
    ensures ResultNames[2] == "ehdv_result" && ResultNames[3] == "preg_val"
    ensures ResultNames[4] == "preg_result" && ResultNames[5] == "bluetongue_result"
  {
  }

  /** A result column is new to the table that already has the first `k`,
      and the join key is there. */
  lemma FreshLabel(k: nat, j: nat)
    requires k <= j < |ResultNames|
    ensures ResultNames[j] != Key && ResultNames[j] !in Labels(k) && Key in Labels(k)
  {
    var names := Labels(k);
    BisonNamesDistinct();
    forall i | 0 <= i < |names|
      ensures names[i] != ResultNames[j]
    {
      assert names[i] == BisonNames[i];
      assert ResultNames[j] == BisonNames[|RegistryNames| + j];
    }
    assert Key == BisonNames[0] == names[0];
  }

  /** Merging the next result column extends the label prefix by one. */
  lemma NextLabel(k: nat, next: nat)
    requires k < |ResultNames| && next == k + 1
    ensures Labels(k) + [ResultNames[k]] == Labels(next)
  {
    assert ResultNames[..k + 1] == ResultNames[..k] + [ResultNames[k]];
  }

  /** The two BVD sections of `bison_etl`: type 1, then type 2, each built
      and merged into the registry table. */
  method MergeBvd(table: Table, bvd1: Table, bvd2: Table) returns (r: Result<Table>)
    requires WellFormed(table) && table.names == Labels(0)
    requires WellFormed(bvd1) && WellFormed(bvd2)
    ensures r.Ok? <==> Strippable(bvd1) && TiterOk(bvd1) && Strippable(bvd2) && TiterOk(bvd2)
    ensures r.Err? ==> r.error in {KeyError(Specimens), TypeError, AttributeError, IndexError}
    ensures r.Ok? ==> TiterOk(bvd1) && TiterOk(bvd2)
    ensures r.Ok? ==> var a := TiterOf(bvd1, "bvd_type1_result");
      JoinReady(table, a) && JoinReady(Join(table, a), TiterOf(bvd2, "bvd_type2_result"))
    ensures r.Ok? ==> r.value == Join(Join(table, TiterOf(bvd1, "bvd_type1_result")), TiterOf(bvd2, "bvd_type2_result"))
    ensures r.Ok? ==> WellFormed(r.value) && r.value.names == Labels(2)
  {
    ResultNamesAre();
    r := MergeTiter(table, bvd1, 0, ResultNames[0]);
    if r.Ok? {
      NextLabel(0, 1);
      r := MergeTiter(r.value, bvd2, 1, ResultNames[1]);
      NextLabel(1, 2);
    }
  }

  /** The EHDV and bluetongue sections of `bison_etl`, merged in that order
      into the table that already has both BVD results. */
  method MergeSerology(table: Table, ehdv: Table, bluetongue: Table) returns (r: Result<Table>)
    requires WellFormed(table) && table.names == Labels(2)
    requires WellFormed(ehdv) && WellFormed(bluetongue)
    ensures r.Ok? <==> Strippable(ehdv) && EhdvOk(ehdv) && Strippable(bluetongue) && BluetongueOk(bluetongue)
    ensures r.Ok? ==> EhdvOk(ehdv) && BluetongueOk(bluetongue)
    ensures r.Ok? ==> JoinReady(table, EhdvOf(ehdv)) && JoinReady(Join(table, EhdvOf(ehdv)), BluetongueOf(bluetongue))
    ensures r.Ok? ==> r.value == Join(Join(table, EhdvOf(ehdv)), BluetongueOf(bluetongue))
  {
    r := MergeEhdv(table, ehdv);
    if r.Ok? {
      r := MergeBluetongue(r.value, bluetongue);
    }
  }

  /** The four test sections of `bison_etl`: each per-test table is built
      and merged into the registry table in turn, and the first one that
      raises ends the run with its error. */
  method MergeTests(table: Table, bvd1: Table, bvd2: Table, ehdv: Table, bluetongue: Table)
    returns (r: Result<Table>)
    requires WellFormed(table) && table.names == RegistryNames
    requires WellFormed(bvd1) && WellFormed(bvd2) && WellFormed(ehdv) && WellFormed(bluetongue)
    ensures r.Ok? <==> TestsOk(bvd1, bvd2, ehdv, bluetongue)
    ensures !(Strippable(bvd1) && TiterOk(bvd1)) ==> r.Err? && r.error in {KeyError(Specimens), TypeError, AttributeError, IndexError}
    ensures r.Ok? ==> FoldReady(table, TestTables(bvd1, bvd2, ehdv, bluetongue))
    ensures r.Ok? ==> r.value == MergeAll(table, TestTables(bvd1, bvd2, ehdv, bluetongue))
  {
    assert Labels(0) == RegistryNames;
    r := MergeBvd(table, bvd1, bvd2);
    if r.Ok? {
      r := MergeSerology(r.value, ehdv, bluetongue);
      if r.Ok? {
        TestsJoins(table, bvd1, bvd2, ehdv, bluetongue);
      }
    }
  }

  /** `bison_etl`, up to writing the result: the registry, then each test
      table built and merged into it in turn. The first step that raises
      ends the run with its error. */
  method BisonEtl(sample: Table, bvd1: Table, bvd2: Table, ehdv: Table, bluetongue: Table)
    returns (r: Result<Table>)
    requires WellFormed(sample) && WellFormed(bvd1) && WellFormed(bvd2)
    requires WellFormed(ehdv) && WellFormed(bluetongue)
    ensures r.Ok? <==> BisonOk(sample, bvd1, bvd2, ehdv, bluetongue)
    ensures |sample.names| != |RegistryNames| ==> r == Err(LengthMismatch(|RegistryNames|, |sample.names|))
    ensures |sample.names| == |RegistryNames| && !Strippable(sample) ==> r == Err(AttributeError)
    ensures |sample.names| == |RegistryNames| && Strippable(sample) && !(Strippable(bvd1) && TiterOk(bvd1)) ==>
      r.Err? && r.error in {KeyError(Specimens), TypeError, AttributeError, IndexError}
    ensures r.Ok? ==> BisonOk(sample, bvd1, bvd2, ehdv, bluetongue)
    ensures r.Ok? ==> r.value == BisonOf(sample, bvd1, bvd2, ehdv, bluetongue)
  {
    var registry := RegistryTable(sample);
    if registry.Err? {
      return Err(registry.error);
    }
    r := MergeTests(registry.value, bvd1, bvd2, ehdv, bluetongue);
  }
}
