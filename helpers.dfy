/** The two frame helpers every ETL script carries a copy of:
    `panda_stripper` and `get_sample_id`. Both change the frame they are given
    and return that same frame. */
module Helpers {
  import opened Outcomes
  import opened Cells
  import opened Tables
  import opened Frames

  /** `row.str.strip()` applied to one object column. */
  function StripCells(cells: seq<Cell>): (r: seq<Cell>)
    ensures |r| == |cells|
    ensures forall i :: 0 <= i < |cells| ==> r[i] == StripCell(cells[i])
  {
    seq(|cells|, i requires 0 <= i < |cells| => StripCell(cells[i]))
  }

  /** The assignment `df[df_obj.columns] = ...` once `apply` has succeeded:
      each object column is replaced by its stripped cells, one column at a
      time, and the frame ends up as `StripTable` of what it was. */
  method StripObjectColumns(df: Frame)
    requires df.Valid()
    modifies df
    ensures df.Valid() && df.Value() == StripTable(old(df.Value()))
  {
    ghost var t := df.Value();
    var j := 0;
    while j < |df.names|
      invariant 0 <= j <= |df.names|
      invariant df.Valid()
      invariant df.names == t.names && df.dtypes == t.dtypes && |df.rows| == |t.rows|
      invariant forall i, c :: 0 <= i < |t.rows| && c in t.names ==>
        df.rows[i][c] == if c in t.names[..j] && t.dtypes[c] == Object then StripCell(t.rows[i][c]) else t.rows[i][c]
    {
      var c := df.names[j];
      assert t.names[..j + 1] == t.names[..j] + [c];
      assert c !in t.names[..j];
      if df.dtypes[c] == Object {
        df.Assign(c, Object, StripCells(Column(df.Value(), c)));
      }
      j := j + 1;
    }
    assert t.names[..j] == t.names;
    forall i | 0 <= i < |t.rows|
      ensures df.rows[i] == StripTable(t).rows[i]
    {
    }
  }

  /** `panda_stripper(df)`: `df.select_dtypes(['object'])` picks the object
      columns and `apply` strips each through the `.str` accessor. If the
      accessor rejects some column, `AttributeError` escapes before anything
      is assigned and the frame is left as it was; otherwise the stripped
      columns are assigned back and `df` is returned. */
  method PandaStripper(df: Frame) returns (r: Result<Frame>)
    requires df.Valid()
    modifies df
    ensures df.Valid()
    ensures r.Ok? <==> Strippable(old(df.Value()))
    ensures r.Err? ==> r.error == AttributeError && unchanged(df)
    ensures r.Ok? ==> r.value == df && df.Value() == StripTable(old(df.Value()))
  {
    if !Strippable(df.Value()) {
      return Err(AttributeError);
    }
    StripObjectColumns(df);
    return Ok(df);
  }

  /** `re.split(r"\s|,", row)[0]` applied to every cell of a column; `None`
      where `re.split` raises `TypeError` because some cell is not a string. */
  function SampleIds(cells: seq<Cell>): (ids: Option<seq<Cell>>)
    ensures ids.Some? <==> forall i :: 0 <= i < |cells| ==> cells[i].Text?
    ensures ids.Some? ==> |ids.value| == |cells|
    ensures ids.Some? ==> forall i :: 0 <= i < |cells| ==> ids.value[i] == Text(SampleIdOf(cells[i].s))
  {
    if cells == [] then Some([])
    else if !cells[0].Text? then None
    else
      match SampleIds(cells[1..])
      case None => None
      case Some(rest) => Some([Text(SampleIdOf(cells[0].s))] + rest)
  }

  /** Every cell of `column` is a string: `re.split` accepts the whole column. */
  ghost predicate TextColumn(t: Table, column: string)
    requires WellFormed(t) && column in t.names
  {
    forall i :: 0 <= i < |t.rows| ==> t.rows[i][column].Text?
  }

  /** The frame `get_sample_id(df, column)` leaves. */
  function WithSampleId(t: Table, column: string): Table
    requires WellFormed(t) && column in t.names && TextColumn(t, column)
  {
    WithColumn(t, Key, Object, SampleIds(Column(t, column)).value)
  }

  /** `get_sample_id` keeps the row count and every other column; `sample_id`
      is overwritten where it stands or appended last, and holds in each row
      the identifier extracted from that row's `column` cell. */
  lemma WithSampleIdSpec(t: Table, column: string)
    requires WellFormed(t) && column in t.names && TextColumn(t, column)
    ensures var r := WithSampleId(t, column);
      && WellFormed(r) && |r.rows| == |t.rows|
      && r.names == (if Key in t.names then t.names else t.names + [Key])
      && r.dtypes == t.dtypes[Key := Object]
      && (forall i :: 0 <= i < |t.rows| ==>
            r.rows[i] == t.rows[i][Key := Text(SampleIdOf(t.rows[i][column].s))])
      && (column != Key ==> forall i :: 0 <= i < |t.rows| ==> r.rows[i][column] == t.rows[i][column])
  {
  }

  /** `get_sample_id(df, column)`: sets the `sample_id` column of `df` to the
      identifier extracted from each cell of `column` and returns `df`. A
      missing column raises `KeyError`, a cell that is not a string
      `TypeError`, and the frame is then left as it was. */
  method GetSampleId(df: Frame, column: string) returns (r: Result<Frame>)
    requires df.Valid()
    modifies df
    ensures df.Valid()
    ensures r.Ok? <==> (column in old(df.names) && TextColumn(old(df.Value()), column))
    ensures r.Err? ==> unchanged(df)
    ensures r.Err? ==> r.error == if column in old(df.names) then TypeError else KeyError(column)
    ensures r.Ok? ==> r.value == df && df.Value() == WithSampleId(old(df.Value()), column)
  {
    if column !in df.names {
      return Err(KeyError(column));
    }
    var ids := SampleIds(Column(df.Value(), column));
    if ids.None? {
      return Err(TypeError);
    }
    df.Assign(Key, Object, ids.value);
    return Ok(df);
  }
}
