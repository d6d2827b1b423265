/** What `from_txt` does with the text of a file
    (`pvpltools/dataplusmeta.py`, lines 188-239): split it into three
    sections, parse each, force the cdef dtypes onto the csv parser except
    the date/time ones, which are parsed afterwards with DATE_FORMAT, and
    make the first column the index. */
module Reading {
  import opened Outcomes
  import opened Tables
  import opened Consistency
  import opened TextLayout

  /** The prefix that marks a dtype as date/time. */
  const DATETIME_PREFIX := "datetime"
  /** The dtype pandas gives a column `pd.to_datetime` has parsed. */
  const DATETIME_DTYPE := "datetime64[ns]"

  /** The keyword arguments of one `pd.read_csv` call in `from_txt`. */
  datatype CsvRead = CsvRead(indexCol: Option<nat>, dtype: map<string, string>, options: ReadCsvOptions)

  /** `read_csv(..., index_col=0, dtype=dict(dtype=str), **READ_CSV_OPTIONS)` */
  const CDEF_READ := CsvRead(Some(0), map[DTYPE_COLUMN := "str"], READ_CSV_OPTIONS)

  /** `read_csv(..., index_col=None, dtype=forced, **READ_CSV_OPTIONS)` */
  function DataRead(forced: map<string, string>): CsvRead {
    CsvRead(None, forced, READ_CSV_OPTIONS)
  }

  /** The parsers `from_txt` hands the sections to (ruamel.yaml's load,
      pandas' `read_csv` and `to_datetime`), known only by their types; None
      stands for a parser that raises. The data parser returns the columns of
      the frame it builds, whose fresh RangeIndex is not modelled. */
  datatype Reader = Reader(
    yamlLoad: string -> Option<Meta>,
    cdefCsv: (string, CsvRead) -> Option<CDef>,
    dataCsv: (string, CsvRead) -> Option<seq<DataColumn>>,
    toDatetime: (seq<Cell>, string) -> Option<seq<Cell>>)

  /** `dtype.startswith('datetime')` */
  predicate IsDatetime(dtype: string) {
    |DATETIME_PREFIX| <= |dtype| && dtype[..|DATETIME_PREFIX|] == DATETIME_PREFIX
  }

  // ---------------------------------------------------------------------
  // The dtype partition (lines 215-222)

  /** `cdef['dtype'].dropna()` as (label, dtype) pairs in cdef order. */
  function LabelledDtypes(labels: seq<string>, cells: seq<Cell>): (pairs: seq<(string, string)>)
    ensures |pairs| <= |labels| && |pairs| <= |cells|
    ensures |labels| == |cells| && (forall i :: 0 <= i < |cells| ==> cells[i].Some?) ==> |pairs| == |labels|
    decreases |labels|
  {
    if labels == [] || cells == [] then []
    else
      (match cells[0] case None => [] case Some(d) => [(labels[0], d)])
      + LabelledDtypes(labels[1..], cells[1..])
  }

  /** `dtypes[timestamps].index`: the labels of the date/time dtypes, in order. */
  function DateLabels(pairs: seq<(string, string)>): (dates: seq<string>)
    ensures |dates| <= |pairs|
    ensures pairs != [] && IsDatetime(pairs[0].1) ==> dates != [] && dates[0] == pairs[0].0
  {
    if pairs == [] then []
    else (if IsDatetime(pairs[0].1) then [pairs[0].0] else []) + DateLabels(pairs[1..])
  }

  /** `dtypes[~timestamps].to_dict()`: the other dtypes by label, a later
      pair overriding an earlier one with the same label. */
  function ForcedDtypes(pairs: seq<(string, string)>): (forced: map<string, string>)
    ensures pairs != [] && !IsDatetime(pairs[|pairs| - 1].1) ==>
      pairs[|pairs| - 1].0 in forced && forced[pairs[|pairs| - 1].0] == pairs[|pairs| - 1].1
  {
    if pairs == [] then map[]
    else (if IsDatetime(pairs[0].1) then map[] else map[pairs[0].0 := pairs[0].1]) + ForcedDtypes(pairs[1..])
  }

  /** How the data section is to be parsed: the dtypes forced on `read_csv`
      and the columns to post-parse as dates. */
  datatype DtypePlan = DtypePlan(forced: map<string, string>, dates: seq<string>)

  /** The branch at line 215: with `use_dtypes` and a `dtype` column, split
      its non-missing dtypes into the two groups; otherwise force nothing and
      post-parse nothing. */
  function PlanDtypes(cdef: CDef, useDtypes: bool): (plan: DtypePlan)
    ensures !useDtypes || !HasColumn(cdef.columns, DTYPE_COLUMN) ==> plan == DtypePlan(map[], [])
  {
    if useDtypes && HasColumn(cdef.columns, DTYPE_COLUMN) then
      var pairs := LabelledDtypes(cdef.labels, ColumnCells(cdef.columns, DTYPE_COLUMN).value);
      DtypePlan(ForcedDtypes(pairs), DateLabels(pairs))
    else
      DtypePlan(map[], [])
  }

  /** The pairs `dropna` keeps are exactly the rows whose dtype is present. */
  lemma {:induction false} LabelledDtypesMembers(labels: seq<string>, cells: seq<Cell>)
    requires |labels| == |cells|
    ensures forall p :: p in LabelledDtypes(labels, cells) <==>
      exists j :: 0 <= j < |labels| && labels[j] == p.0 && cells[j] == Some(p.1)
    decreases |labels|
  {
    if labels != [] {
      LabelledDtypesMembers(labels[1..], cells[1..]);
      var pairs := LabelledDtypes(labels, cells);
      var rest := LabelledDtypes(labels[1..], cells[1..]);
      forall p ensures p in pairs <==> exists j :: 0 <= j < |labels| && labels[j] == p.0 && cells[j] == Some(p.1) {
        if p in pairs && !(labels[0] == p.0 && cells[0] == Some(p.1)) {
          assert p in rest;
          var j :| 0 <= j < |labels| - 1 && labels[1..][j] == p.0 && cells[1..][j] == Some(p.1);
          assert labels[j + 1] == p.0 && cells[j + 1] == Some(p.1);
        }
        if exists j :: 0 <= j < |labels| && labels[j] == p.0 && cells[j] == Some(p.1) {
          var j :| 0 <= j < |labels| && labels[j] == p.0 && cells[j] == Some(p.1);
          if j > 0 {
            assert labels[1..][j - 1] == p.0 && cells[1..][j - 1] == Some(p.1);
          }
        }
      }
    }
  }

  /** Every labelled dtype lands in one of the two groups, the date/time
      ones among the dates and the others among the forced dtypes, and
      nothing lands in a group without such a pair. */
  lemma {:induction false} PartitionCovers(pairs: seq<(string, string)>)
    ensures forall p :: p in pairs && IsDatetime(p.1) ==> p.0 in DateLabels(pairs)
    ensures forall p :: p in pairs && !IsDatetime(p.1) ==> p.0 in ForcedDtypes(pairs)
    ensures forall l :: l in DateLabels(pairs) ==> exists d :: (l, d) in pairs && IsDatetime(d)
    ensures forall l :: l in ForcedDtypes(pairs) ==>
      (l, ForcedDtypes(pairs)[l]) in pairs && !IsDatetime(ForcedDtypes(pairs)[l])
  {
    if pairs != [] {
      var rest := pairs[1..];
      PartitionCovers(rest);
      assert pairs == [pairs[0]] + rest;
      forall l | l in DateLabels(pairs) ensures exists d :: (l, d) in pairs && IsDatetime(d) {
        if l in DateLabels(rest) {
          var d :| (l, d) in rest && IsDatetime(d);
          assert (l, d) in pairs;
        } else {
          assert (l, pairs[0].1) == pairs[0];
        }
      }
    }
  }

  /** Labels that occur once. */
  predicate Distinct(labels: seq<string>) {
    forall i, j :: 0 <= i < j < |labels| ==> labels[i] != labels[j]
  }

  /** With distinct cdef labels, each label's dtype decides its fate alone:
      a missing dtype is dropped, a date/time dtype goes to the dates only,
      and any other dtype is forced on `read_csv`, unchanged, and only there. */
  lemma PartitionExact(labels: seq<string>, cells: seq<Cell>, i: int)
    requires |labels| == |cells| && Distinct(labels) && 0 <= i < |labels|
    ensures var pairs := LabelledDtypes(labels, cells);
      (cells[i].None? ==> labels[i] !in DateLabels(pairs) && labels[i] !in ForcedDtypes(pairs)) &&
      (cells[i].Some? && IsDatetime(cells[i].value) ==>
        labels[i] in DateLabels(pairs) && labels[i] !in ForcedDtypes(pairs)) &&
      (cells[i].Some? && !IsDatetime(cells[i].value) ==>
        labels[i] !in DateLabels(pairs) && labels[i] in ForcedDtypes(pairs) &&
        ForcedDtypes(pairs)[labels[i]] == cells[i].value)
  {
    var pairs := LabelledDtypes(labels, cells);
    LabelledDtypesMembers(labels, cells);
    PartitionCovers(pairs);
    var l := labels[i];
    // every pair with label l comes from row i
    forall d | (l, d) in pairs ensures cells[i] == Some(d) {
      var j :| 0 <= j < |labels| && labels[j] == l && cells[j] == Some(d);
      assert j == i;
    }
    if cells[i].Some? {
      assert (l, cells[i].value) in pairs;
    }
  }

  // ---------------------------------------------------------------------
  // Post-parsing the date/time columns (lines 227-229)

  /** The position of the first column with that label, as `data[col]` finds it. */
  function FindColumn(frame: seq<DataColumn>, name: string): (r: Option<nat>)
    ensures r.Some? ==> r.value < |frame| && frame[r.value].name == name
    ensures r.None? <==> name !in Labels(frame)
  {
    if frame == [] then None
    else if frame[0].name == name then assert Labels(frame)[0] == name; Some(0)
    else match FindColumn(frame[1..], name)
      case None =>
        assert Labels(frame) == [frame[0].name] + Labels(frame[1..]);
        None
      case Some(k) =>
        assert frame[1..][k] == frame[k + 1];
        assert Labels(frame)[k + 1] == name;
        Some(k + 1)
  }

  /** `data[col] = pd.to_datetime(data[col], format=DATE_FORMAT)` on values. */
  function ConvertDates(frame: seq<DataColumn>, name: string, toDatetime: (seq<Cell>, string) -> Option<seq<Cell>>): (r: Result<seq<DataColumn>>)
    ensures name !in Labels(frame) ==> r == Err(KeyError(name))
    ensures r.Ok? ==> |r.value| == |frame|
    ensures r.Ok? ==> FindColumn(frame, name).Some?
    ensures r.Ok? ==> (
      var k := FindColumn(frame, name).value;
      toDatetime(frame[k].cells, DATE_FORMAT) == Some(r.value[k].cells) &&
      r.value == frame[k := DataColumn(name, DATETIME_DTYPE, r.value[k].cells)])
  {
    match FindColumn(frame, name)
    case None => Err(KeyError(name))
    case Some(k) =>
      match toDatetime(frame[k].cells, DATE_FORMAT)
      case None => Err(DateParseError(name))
      case Some(cells) => Ok(frame[k := DataColumn(name, DATETIME_DTYPE, cells)])
  }

  /** The loop at line 228, as a function of the columns to convert. */
  function PostParsed(frame: seq<DataColumn>, names: seq<string>, toDatetime: (seq<Cell>, string) -> Option<seq<Cell>>): (r: Result<seq<DataColumn>>)
    ensures r.Ok? ==> |r.value| == |frame|
    ensures names == [] ==> r == Ok(frame)
    decreases |names|
  {
    if names == [] then Ok(frame)
    else match ConvertDates(frame, names[0], toDatetime)
      case Err(e) => Err(e)
      case Ok(next) => PostParsed(next, names[1..], toDatetime)
  }

  /** The loop itself: overwrite each date/time column of the parsed frame
      with its values parsed by `to_datetime` in the fixed DATE_FORMAT. */
  method PostParseDates(frame: seq<DataColumn>, dates: seq<string>, toDatetime: (seq<Cell>, string) -> Option<seq<Cell>>)
    returns (r: Result<seq<DataColumn>>)
    ensures r == PostParsed(frame, dates, toDatetime)
  {
    var data := frame;
    for i := 0 to |dates|
      invariant PostParsed(data, dates[i..], toDatetime) == PostParsed(frame, dates, toDatetime)
    {
      var col := dates[i];
      assert dates[i..][1..] == dates[i + 1..];
      var k := FindColumn(data, col);
      if k.None? {
        return Err(KeyError(col));
      }
      var parsed := toDatetime(data[k.value].cells, DATE_FORMAT);
      if parsed.None? {
        return Err(DateParseError(col));
      }
      data := data[k.value := DataColumn(col, DATETIME_DTYPE, parsed.value)];
    }
    assert dates[|dates|..] == [];
    return Ok(data);
  }

  /** Post-parsing keeps the labels and their order, leaves every column it
      was not asked to convert as it was, gives each converted column a
      date/time dtype, and fails when a listed column is missing. */
  lemma {:induction false} PostParsedShape(frame: seq<DataColumn>, names: seq<string>, toDatetime: (seq<Cell>, string) -> Option<seq<Cell>>)
    ensures PostParsed(frame, names, toDatetime).Ok? ==>
      var out := PostParsed(frame, names, toDatetime).value;
      Labels(out) == Labels(frame) &&
      (forall k :: 0 <= k < |frame| && frame[k].name !in names ==> out[k] == frame[k]) &&
      (forall n :: n in names ==> exists k :: 0 <= k < |out| && out[k].name == n && IsDatetime(out[k].dtype))
    ensures (exists n :: n in names && n !in Labels(frame)) ==> PostParsed(frame, names, toDatetime).Err?
    decreases |names|
  {
    if names != [] {
      match ConvertDates(frame, names[0], toDatetime)
      case Err(e) =>
      case Ok(next) =>
        var k0 := FindColumn(frame, names[0]).value;
        assert next == frame[k0 := DataColumn(names[0], DATETIME_DTYPE, next[k0].cells)];
        assert Labels(next) == Labels(frame);
        PostParsedShape(next, names[1..], toDatetime);
        var r := PostParsed(next, names[1..], toDatetime);
        assert PostParsed(frame, names, toDatetime) == r;
        assert forall n :: n in names ==> n == names[0] || n in names[1..];
        if r.Ok? {
          var out := r.value;
          assert IsDatetime(DATETIME_DTYPE);
          if names[0] !in names[1..] {
            assert out[k0] == next[k0];
          } else {
            // the later conversion of the same label left a date/time column
          }
        }
    }
  }

  // ---------------------------------------------------------------------
  // from_txt on the text of the file

  /** `data.set_index(data.columns[0])`: the first column becomes the index,
      named by its label. */
  function SetIndexFirst(frame: seq<DataColumn>): (r: Result<DataTable>)
    ensures r.Err? <==> frame == []
    ensures r.Ok? ==> WellFormed(r.value) && r.value.columns == frame && r.value.indexName == Some(frame[0].name)
  {
    if frame == [] then Err(IndexError) else Ok(DataTable(Some(frame[0].name), frame))
  }

  /** The tables and metadata `from_txt` hands to the constructor. */
  datatype Decoded = Decoded(meta: Meta, cdef: CDef, data: DataTable)

  const THREE_SECTIONS_SUFFIX := " does not have three sections."

  /** `from_txt` from the moment the buffer is read, up to the constructor call. */
  function Decode(buffer: string, file: string, useDtypes: bool, rd: Reader): (r: Result<Decoded>)
    ensures |Split(buffer, SECTION_BREAK)| != 3 ==> r == Err(RuntimeError(file + THREE_SECTIONS_SUFFIX))
    ensures r.Ok? ==> WellFormed(r.value.data) && r.value.data.indexName == Some(r.value.data.columns[0].name)
  {
    var sections := Split(buffer, SECTION_BREAK);
    if |sections| != 3 then Err(RuntimeError(file + THREE_SECTIONS_SUFFIX))
    else match rd.yamlLoad(sections[0])
      case None => Err(ParseError(0))
      case Some(meta) =>
        match rd.cdefCsv(sections[1], CDEF_READ)
        case None => Err(ParseError(1))
        case Some(cdef) =>
          var plan := PlanDtypes(cdef, useDtypes);
          match rd.dataCsv(sections[2], DataRead(plan.forced))
          case None => Err(ParseError(2))
          case Some(raw) =>
            match PostParsed(raw, plan.dates, rd.toDatetime)
            case Err(e) => Err(e)
            case Ok(frame) =>
              match SetIndexFirst(frame)
              case Err(e) => Err(e)
              case Ok(data) => Ok(Decoded(meta, cdef, data))
  }

  /** What a faithful csv parser returns for the data section: the written
      labels in order, every column that is not date/time exactly as written,
      and date/time columns as text that `to_datetime` in DATE_FORMAT turns
      back into the written cells. */
  predicate ParsedAsWritten(raw: seq<DataColumn>, cols: seq<DataColumn>, toDatetime: (seq<Cell>, string) -> Option<seq<Cell>>) {
    |raw| == |cols| &&
    forall i :: 0 <= i < |cols| ==>
      raw[i].name == cols[i].name &&
      (!IsDatetime(cols[i].dtype) ==> raw[i] == cols[i]) &&
      (IsDatetime(cols[i].dtype) ==> toDatetime(raw[i].cells, DATE_FORMAT) == Some(cols[i].cells))
  }

  /** With distinct labels, the date/time labels are distinct too. */
  lemma {:induction false} DateLabelsDistinct(labels: seq<string>, cells: seq<Cell>)
    requires |labels| == |cells| && Distinct(labels)
    ensures Distinct(DateLabels(LabelledDtypes(labels, cells)))
    decreases |labels|
  {
    if labels != [] {
      var restLabels, restCells := labels[1..], cells[1..];
      assert Distinct(restLabels) by {
        forall i, j | 0 <= i < j < |restLabels| ensures restLabels[i] != restLabels[j] {
          assert restLabels[i] == labels[i + 1] && restLabels[j] == labels[j + 1];
        }
      }
      DateLabelsDistinct(restLabels, restCells);
      var rest := LabelledDtypes(restLabels, restCells);
      var pairs := LabelledDtypes(labels, cells);
      if cells[0].Some? {
        assert pairs == [(labels[0], cells[0].value)] + rest;
        assert pairs[1..] == rest;
        var tail := DateLabels(rest);
        assert labels[0] !in tail by {
          PartitionCovers(rest);
          LabelledDtypesMembers(restLabels, restCells);
          forall p | p in rest ensures p.0 != labels[0] {
            var j :| 0 <= j < |restLabels| && restLabels[j] == p.0 && restCells[j] == Some(p.1);
            assert restLabels[j] == labels[j + 1];
          }
        }
        var dl := DateLabels(pairs);
        if IsDatetime(cells[0].value) {
          assert dl == [labels[0]] + tail;
          forall i, j | 0 <= i < j < |dl| ensures dl[i] != dl[j] {
            assert dl[j] == tail[j - 1];
            if i > 0 { assert dl[i] == tail[i - 1]; }
          }
        } else {
          assert dl == tail;
        }
      } else {
        assert pairs == rest;
      }
    }
  }

  /** The date loop restores the written columns: given a parser that returns
      every column outside `names` as written and each listed one as text
      `to_datetime` turns back into the written cells, and date/time columns
      written with the dtype `to_datetime` gives, converting the listed
      columns one after another yields exactly the written columns. */
  lemma {:induction false} PostParsedRestores(frame: seq<DataColumn>, target: seq<DataColumn>, names: seq<string>,
                                              toDatetime: (seq<Cell>, string) -> Option<seq<Cell>>)
    requires |frame| == |target| && Labels(frame) == Labels(target)
    requires Distinct(Labels(target)) && Distinct(names)
    requires forall n :: n in names ==> n in Labels(target)
    requires forall i :: 0 <= i < |target| && target[i].name in names ==>
      target[i].dtype == DATETIME_DTYPE && toDatetime(frame[i].cells, DATE_FORMAT) == Some(target[i].cells)
    requires forall i :: 0 <= i < |target| && target[i].name !in names ==> frame[i] == target[i]
    ensures PostParsed(frame, names, toDatetime) == Ok(target)
    decreases |names|
  {
    if names == [] {
      assert frame == target;
    } else {
      var n := names[0];
      var k := FindColumn(frame, n).value;
      assert Labels(frame)[k] == n;
      assert target[k].name == n by { assert Labels(target)[k] == n; }
      var next := frame[k := DataColumn(n, DATETIME_DTYPE, target[k].cells)];
      assert ConvertDates(frame, n, toDatetime) == Ok(next);
      assert next[k] == target[k];
      var later := names[1..];
      assert n !in later by {
        forall j | 0 <= j < |later| ensures later[j] != n {
          assert later[j] == names[j + 1];
        }
      }
      assert Distinct(later) by {
        forall i, j | 0 <= i < j < |later| ensures later[i] != later[j] {
          assert later[i] == names[i + 1] && later[j] == names[j + 1];
        }
      }
      forall i | 0 <= i < |target| && i != k ensures target[i].name != n {
        assert Labels(target)[i] == target[i].name;
        assert Labels(target)[k] == n;
      }
      assert Labels(next) == Labels(target) by {
        forall i | 0 <= i < |next| ensures Labels(next)[i] == Labels(target)[i] {
          assert Labels(frame)[i] == frame[i].name;
        }
      }
      forall m | m in later ensures m in names {
        var j :| 0 <= j < |later| && later[j] == m;
        assert names[j + 1] == m;
      }
      PostParsedRestores(next, target, later, toDatetime);
    }
  }

  /** Reading the data section back with the dtype partition of a consistent
      cdef with distinct labels, through a parser that returns what was
      written (date/time columns as text), and a `to_datetime` that parses
      that text back, gives the written columns. This needs every date/time
      dtype to be the one `to_datetime` gives. */
  lemma DatesRestored(cdef: CDef, data: DataTable, raw: seq<DataColumn>, toDatetime: (seq<Cell>, string) -> Option<seq<Cell>>)
    requires Consistent(Some(data), Some(cdef)) && Distinct(cdef.labels)
    requires forall i :: 0 <= i < |data.columns| && IsDatetime(data.columns[i].dtype) ==> data.columns[i].dtype == DATETIME_DTYPE
    requires ParsedAsWritten(raw, data.columns, toDatetime)
    ensures PostParsed(raw, PlanDtypes(cdef, true).dates, toDatetime) == Ok(data.columns)
  {
    var cols := data.columns;
    MismatchIffInconsistent(Some(data), Some(cdef));
    assert cdef.labels == Labels(cols);
    var cells := ColumnCells(cdef.columns, DTYPE_COLUMN).value;
    assert DtypesAgree(cells, Dtypes(cols));
    var labels := cdef.labels;
    var pairs := LabelledDtypes(labels, cells);
    var dates := DateLabels(pairs);
    assert PlanDtypes(cdef, true).dates == dates;
    DateLabelsDistinct(labels, cells);
    PartitionCovers(pairs);
    LabelledDtypesMembers(labels, cells);
    forall m | m in dates ensures m in Labels(cols) {
      var d :| (m, d) in pairs && IsDatetime(d);
      var j :| 0 <= j < |labels| && labels[j] == m && cells[j] == Some(d);
    }
    forall i | 0 <= i < |cols| ensures cols[i].name in dates <==> IsDatetime(cols[i].dtype) {
      PartitionExact(labels, cells, i);
      assert labels[i] == cols[i].name;
      assert cells[i] == Some(Dtypes(cols)[i]);
    }
    assert Labels(raw) == Labels(cols) by {
      forall i | 0 <= i < |raw| ensures Labels(raw)[i] == Labels(cols)[i] {
      }
    }
    PostParsedRestores(raw, cols, dates, toDatetime);
  }

  /** Reading back what `to_txt` wrote, with `use_dtypes`, gives the same
      metadata and tables, provided the section texts do not hold the break,
      the yaml loader and the cdef parser invert their dumps, the data parser
      returns what was written (date/time columns as text `to_datetime` parses
      back), the cdef agrees with the data and has distinct labels, every
      date/time dtype is the one `to_datetime` gives, and the data index is
      named (as `to_txt` ensures): an unnamed index would come back named
      after its first label. */
  lemma RoundTrip(meta: Meta, preamble: Option<string>, cdef: CDef, data: DataTable, w: Writer,
                  file: string, useDtypes: bool, rd: Reader)
    requires |w.yamlDump(meta)| >= 1 && w.yamlDump(meta)[|w.yamlDump(meta)| - 1] == '\n'
    requires |w.cdefCsv(cdef, WITHOUT_HEADER)| >= 1 && w.cdefCsv(cdef, WITHOUT_HEADER)[|w.cdefCsv(cdef, WITHOUT_HEADER)| - 1] == '\n'
    requires SplitsCleanly(Sections(meta, preamble, cdef, data, w)[0], SECTION_BREAK)
    requires SplitsCleanly(Sections(meta, preamble, cdef, data, w)[1], SECTION_BREAK)
    requires NoOccurrence(Sections(meta, preamble, cdef, data, w)[2], SECTION_BREAK)
    requires rd.yamlLoad(Sections(meta, preamble, cdef, data, w)[0]) == Some(meta)
    requires rd.cdefCsv(Sections(meta, preamble, cdef, data, w)[1], CDEF_READ) == Some(cdef)
    requires useDtypes && Consistent(Some(data), Some(cdef)) && Distinct(cdef.labels)
    requires forall i :: 0 <= i < |data.columns| && IsDatetime(data.columns[i].dtype) ==> data.columns[i].dtype == DATETIME_DTYPE
    requires var raw := rd.dataCsv(Sections(meta, preamble, cdef, data, w)[2], DataRead(PlanDtypes(cdef, true).forced));
      raw.Some? && ParsedAsWritten(raw.value, data.columns, rd.toDatetime)
    requires WellFormed(data) && data.indexName.Some?
    ensures Decode(Layout(meta, preamble, cdef, data, w), file, useDtypes, rd) == Ok(Decoded(meta, cdef, data))
  {
    LayoutSplits(meta, preamble, cdef, data, w);
    var raw := rd.dataCsv(Sections(meta, preamble, cdef, data, w)[2], DataRead(PlanDtypes(cdef, true).forced));
    DatesRestored(cdef, data, raw.value, rd.toDatetime);
  }
}
