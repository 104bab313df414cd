/** A pandas DataFrame as an object: the three edits the ETL makes to a frame
    in place, each specified by the function on `Tables.Table` it applies.
    Operations that build a new frame (`reindex`, `drop`, `merge`) are
    functions only. */
module Frames {
  import opened Tables

  /** A map keyed by `names`, re-keyed by position onto `labels`. */
  function Positional<V>(names: seq<string>, labels: seq<string>, m: map<string, V>): (r: map<string, V>)
    requires |labels| == |names| && Distinct(labels) && NameSet(names) <= m.Keys
    ensures r.Keys == NameSet(labels)
    ensures forall j :: 0 <= j < |labels| ==> r[labels[j]] == m[names[j]]
  {
    if labels == [] then map[]
    else
      var rest := Positional(names[1..], labels[1..], m);
      assert NameSet(labels) == {labels[0]} + NameSet(labels[1..]);
      assert forall j :: 0 < j < |labels| ==> labels[j] == labels[1..][j - 1] && names[j] == names[1..][j - 1];
      rest[labels[0] := m[names[0]]]
  }

  /** `df.columns = labels` on a table value: the labels are renamed by
      position, cells and dtypes move with their column. */
  function Relabeled(t: Table, labels: seq<string>): (r: Table)
    requires WellFormed(t) && Distinct(labels) && |labels| == |t.names|
    ensures WellFormed(r) && r.names == labels && |r.rows| == |t.rows|
    ensures forall j :: 0 <= j < |labels| ==> r.dtypes[labels[j]] == t.dtypes[t.names[j]]
    ensures forall i, j :: 0 <= i < |r.rows| && 0 <= j < |labels| ==>
      r.rows[i][labels[j]] == t.rows[i][t.names[j]]
  {
    Table(labels, Positional(t.names, labels, t.dtypes),
          seq(|t.rows|, i requires 0 <= i < |t.rows| => Positional(t.names, labels, t.rows[i])))
  }

  /** Renaming moves each column with its dtype and cells, so whether
      stripping raises does not depend on the labels. */
  lemma RelabeledStrippable(t: Table, labels: seq<string>)
    requires WellFormed(t) && Distinct(labels) && |labels| == |t.names|
    ensures Strippable(Relabeled(t, labels)) <==> Strippable(t)
  {
    var r := Relabeled(t, labels);
    forall j | 0 <= j < |labels|
      ensures Column(r, labels[j]) == Column(t, t.names[j])
    {
    }
    if Strippable(r) {
      forall c | c in t.names && t.dtypes[c] == Object
        ensures StrAccepts(Column(t, c))
      {
        var j :| 0 <= j < |t.names| && t.names[j] == c;
        assert Column(r, labels[j]) == Column(t, c);
      }
    }
    if Strippable(t) {
      forall c | c in labels && r.dtypes[c] == Object
        ensures StrAccepts(Column(r, c))
      {
        var j :| 0 <= j < |labels| && labels[j] == c;
        assert Column(r, c) == Column(t, t.names[j]);
      }
    }
  }

  class Frame {
    var names: seq<string>
    var dtypes: map<string, Dtype>
    var rows: seq<Row>

    ghost predicate Valid()
      reads this
    {
      WellFormed(Value())
    }

    /** The frame's current contents as a value. */
    function Value(): Table
      reads this
    {
      Table(names, dtypes, rows)
    }

    constructor (t: Table)
      requires WellFormed(t)
      ensures Valid() && Value() == t
    {
      names, dtypes, rows := t.names, t.dtypes, t.rows;
    }

    /** `df[c] = cells`, in place. */
    method Assign(c: string, dtype: Dtype, cells: seq<Cell>)
      requires Valid() && |cells| == |rows|
      modifies this
      ensures Valid() && Value() == WithColumn(old(Value()), c, dtype, cells)
    {
      var t := WithColumn(Value(), c, dtype, cells);
      names, dtypes, rows := t.names, t.dtypes, t.rows;
    }

    /** `del df[c]`, in place. Without such a column pandas raises
        `KeyError`; then `ok` is false and the frame is unchanged. */
    method Delete(c: string) returns (ok: bool)
      requires Valid()
      modifies this
      ensures Valid()
      ensures ok == (c in old(names))
      ensures ok ==> Value() == Dropped(old(Value()), c)
      ensures !ok ==> unchanged(this)
    {
      ok := c in names;
      if ok {
        var t := Dropped(Value(), c);
        names, dtypes, rows := t.names, t.dtypes, t.rows;
      }
    }

    /** `df.columns = labels`. A list of the wrong length makes pandas raise
        `ValueError`; then `ok` is false and the frame is unchanged. */
    method Relabel(labels: seq<string>) returns (ok: bool)
      requires Valid() && Distinct(labels)
      modifies this
      ensures Valid()
      ensures ok == (|labels| == |old(names)|)
      ensures ok ==> Value() == Relabeled(old(Value()), labels)
      ensures !ok ==> unchanged(this)
    {
      ok := |labels| == |names|;
      if ok {
        var r := Relabeled(Value(), labels);
        names, dtypes, rows := r.names, r.dtypes, r.rows;
      }
    }
  }
}
