/** The agreement between the column definitions and the data that
    `check_cdef` tests and `update_cdef` establishes
    (`pvpltools/dataplusmeta.py`, lines 118-186), on values. */
module Consistency {
  import opened Outcomes
  import opened Tables

  const MISSING_MESSAGE := "Either cdef or data is missing."
  const LABELS_MESSAGE := "Labels in cdef do not match labels in data."
  const NO_DTYPES_MESSAGE := "No dtypes in cdef."
  const DTYPES_MESSAGE := "dtypes in cdef do not match dtypes in data"

  /** The column of cdef that records each label's dtype. */
  const DTYPE_COLUMN := "dtype"
  /** The index name `update_cdef` and `to_txt` give a cdef. */
  const DEFAULT_INDEX_NAME := "column"

  /** `all(cdef.dtype == dtypes)`: a missing cell never equals a dtype. */
  predicate DtypesAgree(cells: seq<Cell>, dtypes: seq<string>) {
    |cells| == |dtypes| && forall i :: 0 <= i < |cells| ==> cells[i] == Some(dtypes[i])
  }

  /** The dtype strings of the data, as the cells of a new `dtype` column. */
  function DtypeCells(cols: seq<DataColumn>): seq<Cell> {
    seq(|cols|, i requires 0 <= i < |cols| => Some(cols[i].dtype))
  }

  /** The agreement the module documents, stated without the order in which
      `check_cdef` tests it: both tables absent, or both present with one cdef
      row per data label in the same order and a `dtype` column whose every
      cell is the dtype of the matching data column. */
  ghost predicate Consistent(data: Option<DataTable>, cdef: Option<CDef>) {
    (data.None? && cdef.None?) ||
    (data.Some? && cdef.Some? &&
      |cdef.value.labels| == |data.value.columns| &&
      (forall i :: 0 <= i < |data.value.columns| ==> cdef.value.labels[i] == data.value.columns[i].name) &&
      exists k :: 0 <= k < |cdef.value.columns| && DtypeColumnAt(cdef.value, k) &&
        |cdef.value.columns[k].cells| == |data.value.columns| &&
        forall i :: 0 <= i < |data.value.columns| ==> cdef.value.columns[k].cells[i] == Some(data.value.columns[i].dtype))
  }

  /** Column `k` of `c` is the one `cdef.dtype` reads: the first named "dtype". */
  ghost predicate DtypeColumnAt(c: CDef, k: int)
    requires 0 <= k < |c.columns|
  {
    c.columns[k].name == DTYPE_COLUMN && forall j :: 0 <= j < k ==> c.columns[j].name != DTYPE_COLUMN
  }

  /** The message `check_cdef` reports, from its tests in their order, or
      None when every test passes. */
  function Mismatch(data: Option<DataTable>, cdef: Option<CDef>): (m: Option<string>)
    ensures m.Some? ==> m.value in {MISSING_MESSAGE, LABELS_MESSAGE, NO_DTYPES_MESSAGE, DTYPES_MESSAGE}
  {
    if cdef.None? && data.None? then None
    else if cdef.None? || data.None? then Some(MISSING_MESSAGE)
    else if cdef.value.labels != Labels(data.value.columns) then Some(LABELS_MESSAGE)
    else match ColumnCells(cdef.value.columns, DTYPE_COLUMN)
      case None => Some(NO_DTYPES_MESSAGE)
      case Some(cells) =>
        if DtypesAgree(cells, Dtypes(data.value.columns)) then None else Some(DTYPES_MESSAGE)
  }

  /** The ordered tests of `check_cdef` pass exactly when the tables are
      consistent in the documented sense. */
  lemma MismatchIffInconsistent(data: Option<DataTable>, cdef: Option<CDef>)
    ensures Mismatch(data, cdef).None? <==> Consistent(data, cdef)
  {
    if data.Some? && cdef.Some? {
      var d, c := data.value, cdef.value;
      if Mismatch(data, cdef).None? {
        FirstNamedColumn(c.columns, DTYPE_COLUMN);
        var k :| 0 <= k < |c.columns| && c.columns[k].name == DTYPE_COLUMN &&
          (forall j :: 0 <= j < k ==> c.columns[j].name != DTYPE_COLUMN) &&
          ColumnCells(c.columns, DTYPE_COLUMN) == Some(c.columns[k].cells);
        assert DtypeColumnAt(c, k);
        assert |c.labels| == |Labels(d.columns)|;
        assert forall i :: 0 <= i < |d.columns| ==> c.labels[i] == Labels(d.columns)[i];
      }
      if Consistent(data, cdef) {
        var k :| 0 <= k < |c.columns| && DtypeColumnAt(c, k) &&
          |c.columns[k].cells| == |d.columns| &&
          forall i :: 0 <= i < |d.columns| ==> c.columns[k].cells[i] == Some(d.columns[i].dtype);
        assert c.labels == Labels(d.columns);
        assert HasColumn(c.columns, DTYPE_COLUMN);
        FirstNamedColumn(c.columns, DTYPE_COLUMN);
        var k' :| 0 <= k' < |c.columns| && c.columns[k'].name == DTYPE_COLUMN &&
          (forall j :: 0 <= j < k' ==> c.columns[j].name != DTYPE_COLUMN) &&
          ColumnCells(c.columns, DTYPE_COLUMN) == Some(c.columns[k'].cells);
        assert k == k';
      }
    }
  }

  /** The first failing test names the message: a label mismatch is reported
      whatever the dtypes, a missing `dtype` column only once the labels
      agree, and a dtype mismatch only once both earlier tests pass. */
  lemma MismatchPriority(d: DataTable, c: CDef)
    ensures c.labels != Labels(d.columns) ==> Mismatch(Some(d), Some(c)) == Some(LABELS_MESSAGE)
    ensures c.labels == Labels(d.columns) && !HasColumn(c.columns, DTYPE_COLUMN) ==>
      Mismatch(Some(d), Some(c)) == Some(NO_DTYPES_MESSAGE)
    ensures c.labels == Labels(d.columns) && HasColumn(c.columns, DTYPE_COLUMN) ==>
      Mismatch(Some(d), Some(c)) in {None, Some(DTYPES_MESSAGE)}
  {
  }

  /** What `update_cdef` does, before its mode decides how a failure is reported. */
  datatype Update = Assign(cdef: Option<CDef>) | LabelsDiffer

  /** `update_cdef` on values: drop the cdef when there is no data, build
      one from the data dtypes when there is none, rewrite its `dtype` column
      when its labels match, and otherwise fail. */
  function PlanUpdate(data: Option<DataTable>, cdef: Option<CDef>): (u: Update)
    ensures u.LabelsDiffer? <==> data.Some? && cdef.Some? && cdef.value.labels != Labels(data.value.columns)
    ensures data.None? ==> u == Assign(None)
    ensures data.Some? ==> u.LabelsDiffer? || u.cdef.Some?
  {
    if data.None? then Assign(None)
    else
      var cols := data.value.columns;
      if cdef.None? then
        Assign(Some(CDef(Some(DEFAULT_INDEX_NAME), Labels(cols), [Column(DTYPE_COLUMN, DtypeCells(cols))])))
      else if cdef.value.labels == Labels(cols) then
        Assign(Some(cdef.value.(columns := SetColumn(cdef.value.columns, DTYPE_COLUMN, DtypeCells(cols)))))
      else LabelsDiffer
  }

  /** Whenever `update_cdef` succeeds, a following `check_cdef` passes. */
  lemma {:induction false} UpdateThenCheck(data: Option<DataTable>, cdef: Option<CDef>)
    requires PlanUpdate(data, cdef).Assign?
    ensures Mismatch(data, PlanUpdate(data, cdef).cdef).None?
    ensures Consistent(data, PlanUpdate(data, cdef).cdef)
  {
    var c' := PlanUpdate(data, cdef).cdef;
    if data.Some? {
      var cols := data.value.columns;
      ColumnCellsAfterSet(if cdef.None? then [] else cdef.value.columns, DTYPE_COLUMN, DtypeCells(cols));
      assert ColumnCells(c'.value.columns, DTYPE_COLUMN) == Some(DtypeCells(cols));
      assert DtypesAgree(DtypeCells(cols), Dtypes(cols));
    }
    MismatchIffInconsistent(data, c');
  }

  /** Running `update_cdef` again changes nothing. */
  lemma {:induction false} UpdateIdempotent(data: Option<DataTable>, cdef: Option<CDef>)
    requires PlanUpdate(data, cdef).Assign?
    ensures PlanUpdate(data, PlanUpdate(data, cdef).cdef) == PlanUpdate(data, cdef)
  {
    if data.Some? {
      var cols := data.value.columns;
      var c' := PlanUpdate(data, cdef).cdef.value;
      if cdef.None? {
        assert SetColumn(c'.columns, DTYPE_COLUMN, DtypeCells(cols)) == c'.columns by {
          assert HasColumn(c'.columns, DTYPE_COLUMN) by { assert c'.columns[0].name == DTYPE_COLUMN; }
        }
      } else {
        SetColumnIdempotent(cdef.value.columns, DTYPE_COLUMN, DtypeCells(cols));
      }
    }
  }

  /** `update_cdef` keeps the cdef's column names unique: a new cdef has the
      one `dtype` column, and a rewrite replaces or appends that column. */
  lemma UpdateKeepsUniqueNames(data: Option<DataTable>, cdef: Option<CDef>)
    requires cdef.Some? ==> UniqueNames(cdef.value.columns)
    requires PlanUpdate(data, cdef).Assign? && PlanUpdate(data, cdef).cdef.Some?
    ensures UniqueNames(PlanUpdate(data, cdef).cdef.value.columns)
  {
    if cdef.Some? {
      SetColumnKeepsUniqueNames(cdef.value.columns, DTYPE_COLUMN, DtypeCells(data.value.columns));
    }
  }

  /** With matching labels, `update_cdef` rewrites the `dtype` column and
      nothing else: the index name, the rows and their order, and every other
      column stay as they were; a missing `dtype` column is appended last. */
  lemma UpdateKeepsDescriptions(d: DataTable, c: CDef)
    requires c.labels == Labels(d.columns)
    ensures PlanUpdate(Some(d), Some(c)).Assign?
    ensures var c' := PlanUpdate(Some(d), Some(c)).cdef.value;
      c'.indexName == c.indexName && c'.labels == c.labels &&
      |c'.columns| == |c.columns| + (if HasColumn(c.columns, DTYPE_COLUMN) then 0 else 1) &&
      (forall k :: 0 <= k < |c.columns| && c.columns[k].name != DTYPE_COLUMN ==> c'.columns[k] == c.columns[k]) &&
      ColumnCells(c'.columns, DTYPE_COLUMN) == Some(DtypeCells(d.columns))
  {
    ColumnCellsAfterSet(c.columns, DTYPE_COLUMN, DtypeCells(d.columns));
  }

  /** Without a cdef, `update_cdef` builds one with a single `dtype` column,
      one row per data label in data order, and the index named "column". */
  lemma NewCdefShape(d: DataTable)
    ensures PlanUpdate(Some(d), None).Assign?
    ensures var c' := PlanUpdate(Some(d), None).cdef.value;
      c'.indexName == Some(DEFAULT_INDEX_NAME) &&
      |c'.labels| == |d.columns| &&
      (forall i :: 0 <= i < |d.columns| ==> c'.labels[i] == d.columns[i].name) &&
      |c'.columns| == 1 && c'.columns[0].name == DTYPE_COLUMN &&
      DtypesAgree(c'.columns[0].cells, Dtypes(d.columns))
  {
  }
}
