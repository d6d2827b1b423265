/** The two pandas tables a DataPlusMeta object holds, reduced to what its
    logic looks at: labels, dtype strings and the `dtype` column of the
    column definitions. Cell values are carried as text and never inspected. */
module Tables {
  import opened Outcomes

  /** A cell: its text, or missing (pandas NaN). */
  type Cell = Option<string>

  /** A named column of the column-definitions table. */
  datatype Column = Column(name: string, cells: seq<Cell>)

  /** The column-definitions table `cdef`: one row per label, an optional
      index name, and its columns, of which the one named "dtype" matters. */
  datatype CDef = CDef(indexName: Option<string>, labels: seq<string>, columns: seq<Column>)

  /** One column of the data table with its dtype string. */
  datatype DataColumn = DataColumn(name: string, dtype: string, cells: seq<Cell>)

  /** The data table as `data.reset_index()` shows it: `columns[0]` is the
      index column, the others follow in order. */
  datatype DataTable = DataTable(indexName: Option<string>, columns: seq<DataColumn>)

  /** The metadata dictionary, as far as Python truthiness needs to see it. */
  datatype Meta =
    | Null
    | Bool(b: bool)
    | Int(i: int)
    | Str(s: string)
    | List(items: seq<Meta>)
    | Dict(entries: seq<(string, Meta)>)

  /** Python's `bool(meta)`: the falsy values are None, False, zero and the
      empty string, list and dictionary. */
  predicate Truthy(m: Meta)
    ensures !Truthy(m) <==> m in {Null, Bool(false), Int(0), Str(""), List([]), Dict([])}
  {
    match m
    case Null => false
    case Bool(b) => b
    case Int(i) => i != 0
    case Str(s) => s != ""
    case List(items) => items != []
    case Dict(entries) => entries != []
  }

  /** The index of `data.reset_index().dtypes`: index label first, then the columns. */
  function Labels(cols: seq<DataColumn>): seq<string> {
    seq(|cols|, i requires 0 <= i < |cols| => cols[i].name)
  }

  /** The values of `data.reset_index().dtypes.astype(str)`. */
  function Dtypes(cols: seq<DataColumn>): seq<string> {
    seq(|cols|, i requires 0 <= i < |cols| => cols[i].dtype)
  }

  /** What every pandas DataFrame satisfies in the reset-index view: the index
      column is there, and a named index gives its label. */
  predicate WellFormed(d: DataTable) {
    |d.columns| >= 1 &&
    (d.indexName.Some? ==> d.columns[0].name == d.indexName.value)
  }

  /** `name in cdef.columns` */
  predicate HasColumn(cols: seq<Column>, name: string) {
    exists k :: 0 <= k < |cols| && cols[k].name == name
  }

  /** `cdef[name]`: the cells of the first column with that name, if any. */
  function ColumnCells(cols: seq<Column>, name: string): (r: Option<seq<Cell>>)
    ensures r.Some? <==> HasColumn(cols, name)
    ensures r.Some? ==> exists k :: 0 <= k < |cols| && cols[k].name == name && cols[k].cells == r.value
  {
    if cols == [] then None
    else if cols[0].name == name then Some(cols[0].cells)
    else
      var r := ColumnCells(cols[1..], name);
      assert forall k :: 0 <= k < |cols| - 1 ==> cols[1..][k] == cols[k + 1];
      r
  }

  /** `cdef[name] = cells`: replaces the column of that name where it stands,
      or appends one at the end. */
  function SetColumn(cols: seq<Column>, name: string, cells: seq<Cell>): (r: seq<Column>)
    ensures HasColumn(cols, name) ==> |r| == |cols|
    ensures !HasColumn(cols, name) ==> |r| == |cols| + 1 && r[|cols|] == Column(name, cells)
    ensures forall k :: 0 <= k < |cols| && cols[k].name != name ==> r[k] == cols[k]
    ensures forall k :: 0 <= k < |cols| && cols[k].name == name ==> r[k] == Column(name, cells)
  {
    if HasColumn(cols, name) then
      seq(|cols|, k requires 0 <= k < |cols| => if cols[k].name == name then Column(name, cells) else cols[k])
    else
      cols + [Column(name, cells)]
  }

  /** After `cdef[name] = cells`, reading `cdef[name]` gives `cells`. */
  lemma {:induction false} ColumnCellsAfterSet(cols: seq<Column>, name: string, cells: seq<Cell>)
    ensures ColumnCells(SetColumn(cols, name, cells), name) == Some(cells)
  {
    var r := SetColumn(cols, name, cells);
    if !HasColumn(cols, name) {
      assert r[|cols|].name == name;
    }
    FirstNamedColumn(r, name);
  }

  /** The cells `ColumnCells` returns are those of the first column of that name. */
  lemma {:induction false} FirstNamedColumn(cols: seq<Column>, name: string)
    requires HasColumn(cols, name)
    ensures exists k :: (0 <= k < |cols| && cols[k].name == name &&
      (forall j :: 0 <= j < k ==> cols[j].name != name) &&
      ColumnCells(cols, name) == Some(cols[k].cells))
  {
    if cols[0].name == name {
      assert ColumnCells(cols, name) == Some(cols[0].cells);
    } else {
      var k0 :| 0 <= k0 < |cols| && cols[k0].name == name;
      assert cols[1..][k0 - 1] == cols[k0];
      FirstNamedColumn(cols[1..], name);
      var k :| 0 <= k < |cols| - 1 && cols[1..][k].name == name &&
        (forall j :: 0 <= j < k ==> cols[1..][j].name != name) &&
        ColumnCells(cols[1..], name) == Some(cols[1..][k].cells);
      assert cols[k + 1] == cols[1..][k];
      forall j | 0 <= j < k + 1 ensures cols[j].name != name {
        if j > 0 { assert cols[j] == cols[1..][j - 1]; }
      }
    }
  }

  /** Column names occur once: the shape in which pandas' `cdef.dtype` is a
      single column rather than a frame of all columns so named. */
  predicate UniqueNames(cols: seq<Column>) {
    forall i, j :: 0 <= i < j < |cols| ==> cols[i].name != cols[j].name
  }

  /** With unique names, `cdef[name]` reads the one column of that name. */
  lemma UniqueNamedColumn(cols: seq<Column>, name: string, k: int)
    requires UniqueNames(cols) && 0 <= k < |cols| && cols[k].name == name
    ensures ColumnCells(cols, name) == Some(cols[k].cells)
  {
    FirstNamedColumn(cols, name);
    var k' :| 0 <= k' < |cols| && cols[k'].name == name &&
      (forall j :: 0 <= j < k' ==> cols[j].name != name) &&
      ColumnCells(cols, name) == Some(cols[k'].cells);
    assert k' <= k;
    assert k' == k;
  }

  /** `cdef[name] = cells` keeps column names unique. */
  lemma SetColumnKeepsUniqueNames(cols: seq<Column>, name: string, cells: seq<Cell>)
    requires UniqueNames(cols)
    ensures UniqueNames(SetColumn(cols, name, cells))
  {
    var r := SetColumn(cols, name, cells);
    forall k | 0 <= k < |cols| ensures r[k].name == cols[k].name {
    }
    if !HasColumn(cols, name) {
      forall i | 0 <= i < |cols| ensures r[i].name != r[|cols|].name {
      }
    }
  }

  /** Setting a column twice to the same cells is the same as setting it once. */
  lemma {:induction false} SetColumnIdempotent(cols: seq<Column>, name: string, cells: seq<Cell>)
    ensures SetColumn(SetColumn(cols, name, cells), name, cells) == SetColumn(cols, name, cells)
  {
    var once := SetColumn(cols, name, cells);
    if !HasColumn(cols, name) {
      assert once[|cols|].name == name;
    } else {
      var k :| 0 <= k < |cols| && cols[k].name == name;
      assert once[k].name == name;
    }
    assert HasColumn(once, name);
    var twice := SetColumn(once, name, cells);
    assert |twice| == |once|;
    assert forall k :: 0 <= k < |once| ==> twice[k] == once[k];
  }

  /** `cdef[:0]`: the same columns with no rows. */
  function NoRows(c: CDef): (r: CDef)
    ensures r.indexName == c.indexName && r.labels == []
    ensures |r.columns| == |c.columns|
    ensures forall k :: 0 <= k < |c.columns| ==> r.columns[k].name == c.columns[k].name && r.columns[k].cells == []
  {
    CDef(c.indexName, [], seq(|c.columns|, k requires 0 <= k < |c.columns| => Column(c.columns[k].name, [])))
  }

  /** `data.iloc[:0]`: the same columns, dtypes and index name with no rows. */
  function NoDataRows(d: DataTable): (r: DataTable)
    ensures r.indexName == d.indexName
    ensures Labels(r.columns) == Labels(d.columns) && Dtypes(r.columns) == Dtypes(d.columns)
    ensures forall k :: 0 <= k < |r.columns| ==> r.columns[k].cells == []
  {
    DataTable(d.indexName, seq(|d.columns|, k requires 0 <= k < |d.columns| =>
      DataColumn(d.columns[k].name, d.columns[k].dtype, [])))
  }
}
