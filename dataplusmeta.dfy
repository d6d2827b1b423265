/** The DataPlusMeta class of `pvpltools/dataplusmeta.py`: a data table, its
    column definitions, a metadata dictionary and a source string, checked
    against each other, kept in step, and written to and read from the
    three-section text format. */
module Container {
  import opened Outcomes
  import opened Tables
  import opened Consistency
  import opened TextLayout
  import opened Reading

  const CLASS_NAME := "DataPlusMeta"
  const UNKNOWN_SOURCE := "unknown source"
  const NO_DATA_MESSAGE := "There is no data to store."

  /** What the target file of `to_txt` holds when it is done: it was never
      opened, it was opened for writing and so emptied, or it holds the text. */
  datatype FileState = Untouched | Truncated | Written(text: string)

  // ---------------------------------------------------------------------
  // '%d' formatting, for __repr__

  function DigitChar(d: nat): char
    requires d < 10
  {
    (48 + d) as char
  }

  function DigitValue(c: char): nat {
    if '0' <= c <= '9' then (c as int) - 48 else 0
  }

  /** `'%d' % n` */
  function NatToString(n: nat): (s: string)
    ensures 1 <= |s| <= n + 1
    ensures forall i :: 0 <= i < |s| ==> '0' <= s[i] <= '9'
    decreases n
  {
    if n < 10 then [DigitChar(n)] else NatToString(n / 10) + [DigitChar(n % 10)]
  }

  /** `int(s)` for a string of decimal digits. */
  function DigitsValue(s: string): nat {
    if s == [] then 0 else 10 * DigitsValue(s[..|s| - 1]) + DigitValue(s[|s| - 1])
  }

  /** '%d' writes decimal digits without leading zeros that read back as the number. */
  lemma {:induction false} NatToStringRoundTrip(n: nat)
    ensures var s := NatToString(n);
      |s| >= 1 && (forall i :: 0 <= i < |s| ==> '0' <= s[i] <= '9') &&
      (s[0] == '0' ==> n == 0 && s == "0") && DigitsValue(s) == n
    decreases n
  {
    var s := NatToString(n);
    if n >= 10 {
      NatToStringRoundTrip(n / 10);
      var init := NatToString(n / 10);
      assert s[..|s| - 1] == init;
      assert s[0] == init[0];
      assert DigitValue(s[|s| - 1]) == n % 10;
    }
  }

  // ---------------------------------------------------------------------
  // to_txt, steps taken before writing (lines 256-266)

  /** `update_cdef(raise_on_fail=True)` or `check_cdef(raise_on_mismatch=True)`
      as `to_txt` runs them: the cdef to write, or the error raised. */
  function CheckedCdef(data: DataTable, cdef: Option<CDef>, updateCdef: bool): (r: Result<CDef>)
    ensures r.Err? <==>
      (if updateCdef then PlanUpdate(Some(data), cdef).LabelsDiffer? else !Consistent(Some(data), cdef))
    ensures r.Err? ==> (r.error.RuntimeError? &&
      Some(r.error.message) == (if updateCdef then Some(LABELS_MESSAGE) else Mismatch(Some(data), cdef)))
    ensures r.Ok? ==> Consistent(Some(data), Some(r.value))
    ensures r.Ok? && !updateCdef ==> Some(r.value) == cdef
    ensures r.Ok? && updateCdef ==> Some(r.value) == PlanUpdate(Some(data), cdef).cdef
  {
    MismatchIffInconsistent(Some(data), cdef);
    if updateCdef then
      match PlanUpdate(Some(data), cdef)
      case LabelsDiffer => Err(RuntimeError(LABELS_MESSAGE))
      case Assign(c) => UpdateThenCheck(Some(data), cdef); Ok(c.value)
    else
      match Mismatch(Some(data), cdef)
      case Some(message) => Err(RuntimeError(message))
      case None => Ok(cdef.value)
  }

  /** The index names play no part in the agreement. */
  lemma ConsistentIgnoresNames(d: DataTable, c: CDef, dn: Option<string>, cn: Option<string>)
    requires Consistent(Some(d), Some(c))
    ensures Consistent(Some(d.(indexName := dn)), Some(c.(indexName := cn)))
  {
    var k :| 0 <= k < |c.columns| && DtypeColumnAt(c, k) &&
      |c.columns[k].cells| == |d.columns| &&
      forall i :: 0 <= i < |d.columns| ==> c.columns[k].cells[i] == Some(d.columns[i].dtype);
    assert DtypeColumnAt(c.(indexName := cn), k);
  }

  /** Lines 261-266 of `to_txt`: a missing cdef index name becomes "column",
      a missing data index name the first cdef label; names already given
      are kept, and the tables still agree. */
  function FillNames(c: CDef, d: DataTable): (r: (CDef, DataTable))
    requires WellFormed(d) && Consistent(Some(d), Some(c))
    ensures WellFormed(r.1) && Consistent(Some(r.1), Some(r.0))
    ensures r.0.labels == c.labels && r.0.columns == c.columns && r.1.columns == d.columns
    ensures r.0.indexName == (if c.indexName.Some? then c.indexName else Some(DEFAULT_INDEX_NAME))
    ensures r.1.indexName == Some(c.labels[0])
    ensures d.indexName.Some? ==> r.1.indexName == d.indexName
  {
    var named := if c.indexName.None? then c.(indexName := Some(DEFAULT_INDEX_NAME)) else c;
    var d' := if d.indexName.None? then d.(indexName := Some(named.labels[0])) else d;
    ConsistentIgnoresNames(d, c, d'.indexName, named.indexName);
    assert named == c.(indexName := named.indexName) && d' == d.(indexName := d'.indexName);
    (named, d')
  }

  /** The tables `to_txt` writes, or the error that stops it. */
  function PrepareForWrite(data: DataTable, cdef: Option<CDef>, updateCdef: bool): (r: Result<(CDef, DataTable)>)
    requires WellFormed(data)
    ensures r.Err? <==> CheckedCdef(data, cdef, updateCdef).Err?
    ensures r.Err? ==> r.error == CheckedCdef(data, cdef, updateCdef).error
    ensures r.Ok? ==>
      WellFormed(r.value.1) && Consistent(Some(r.value.1), Some(r.value.0)) &&
      r.value.1.columns == data.columns && r.value.0.indexName.Some? &&
      r.value.1.indexName == Some(r.value.0.labels[0])
  {
    match CheckedCdef(data, cdef, updateCdef)
    case Err(e) => Err(e)
    case Ok(c) => Ok(FillNames(c, data))
  }

  /** The writes of `to_txt` (lines 268-292) in their order: the byte-order
      mark, each preamble line as a comment and a blank line after them, the
      yaml dump, a blank line, the cdef header and body, a blank line, the
      data header and body. */
  method WriteText(meta: Meta, preamble: Option<string>, cdef: CDef, data: DataTable, w: Writer) returns (out: string)
    ensures out == Layout(meta, preamble, cdef, data, w)
  {
    out := [UTF8_BOM];
    if preamble.Some? && preamble.value != "" {
      var lines := SplitLines(preamble.value);
      for i := 0 to |lines|
        invariant out == [UTF8_BOM] + CommentLines(lines[..i])
      {
        assert lines[..i + 1][..i] == lines[..i];
        out := out + [COMMENT_CHAR] + " " + lines[i] + "\n";
      }
      assert lines[..|lines|] == lines;
      out := out + BLANK_LINE;
    }
    assert out == [UTF8_BOM] + PreambleBlock(preamble);
    out := out + w.yamlDump(meta);
    out := out + SECTION_SEPARATOR;
    out := out + w.cdefCsv(NoRows(cdef), WITH_HEADER);
    out := out + BLANK_LINE;
    out := out + w.cdefCsv(cdef, WITHOUT_HEADER);
    out := out + SECTION_SEPARATOR;
    out := out + w.dataCsv(NoDataRows(data), WITH_HEADER);
    out := out + BLANK_LINE;
    out := out + w.dataCsv(data, WITHOUT_HEADER);
  }

  /** The object. Its fields hold the tables by value: `update_cdef` and
      `to_txt` reassign them where the source mutates the frames in place.
      A caller holding the same frames does not see those changes here. */
  class DataPlusMeta {
    var data: Option<DataTable>
    var cdef: Option<CDef>
    var meta: Meta
    var source: string

    /** Any data held is a well-formed frame. */
    ghost predicate Valid()
      reads this
    {
      data.Some? ==> WellFormed(data.value)
    }

    /** `__init__`: `meta or {}` and `source or ''`. The advisory check it
        then runs changes nothing; its warning is what `CheckCdef(false)`
        returns. */
    constructor (data: Option<DataTable>, cdef: Option<CDef>, meta: Meta, source: Option<string>)
      requires data.Some? ==> WellFormed(data.value)
      ensures Valid()
      ensures this.data == data && this.cdef == cdef
      ensures this.meta == (if Truthy(meta) then meta else Dict([]))
      ensures this.source == (if source.Some? then source.value else "")
    {
      this.data := data;
      this.cdef := cdef;
      this.meta := if Truthy(meta) then meta else Dict([]);
      this.source := if source.Some? && source.value != "" then source.value else "";
    }

    /** The count `__repr__` reports: 0 without data, else the data columns
        plus one for the index. */
    function DataColumnCount(): (n: nat)
      reads this
      requires Valid()
      ensures data.None? ==> n == 0
      ensures data.Some? ==> n == |Labels(data.value.columns)| && n >= 1
      ensures Consistent(data, cdef) && cdef.Some? ==> n == |cdef.value.labels|
    {
      if data.None? then 0 else (|data.value.columns| - 1) + 1
    }

    /** `__repr__`: "DataPlusMeta object with <n> data columns from <source>.",
        naming an unknown source when the source string is empty. */
    function Repr(): (s: string)
      reads this
      requires Valid()
      ensures var head := CLASS_NAME + " object with ";
        var tail := " data columns from " + (if source == "" then UNKNOWN_SOURCE else source) + ".";
        |s| > |head| + |tail| && s[..|head|] == head && s[|s| - |tail|..] == tail &&
        (forall i :: |head| <= i < |s| - |tail| ==> '0' <= s[i] <= '9') &&
        (s[|head|] == '0' ==> |s| == |head| + 1 + |tail| && DataColumnCount() == 0) &&
        DigitsValue(s[|head|..|s| - |tail|]) == DataColumnCount()
    {
      var head := CLASS_NAME + " object with ";
      var digits := NatToString(DataColumnCount());
      var tail := " data columns from " + (if source == "" then UNKNOWN_SOURCE else source) + ".";
      NatToStringRoundTrip(DataColumnCount());
      var s := head + digits + tail;
      assert s[..|head|] == head && s[|head|..|s| - |tail|] == digits && s[|s| - |tail|..] == tail;
      assert forall i :: |head| <= i < |s| - |tail| ==> s[i] == digits[i - |head|];
      s
    }

    /** `check_cdef`: True when the tables are consistent; on a mismatch,
        raise with the message of the first failing test, or warn with it
        and return False. It changes nothing. */
    function CheckCdef(raiseOnMismatch: bool): (r: Outcome<bool>)
      reads this
      ensures r.Raise? <==> raiseOnMismatch && !Consistent(data, cdef)
      ensures r.Return? ==> (r.value <==> Consistent(data, cdef)) && (r.warning.Some? <==> !r.value)
      ensures r.Raise? ==> Mismatch(data, cdef).Some? && r.error == RuntimeError(Mismatch(data, cdef).value)
      ensures r.Return? && !r.value ==> r.warning == Mismatch(data, cdef)
      ensures data.None? && cdef.None? ==> r == Return(true, None)
      ensures data.None? != cdef.None? ==>
        r == (if raiseOnMismatch then Raise(RuntimeError(MISSING_MESSAGE)) else Return(false, Some(MISSING_MESSAGE)))
    {
      MismatchIffInconsistent(data, cdef);
      match Mismatch(data, cdef)
      case None => Return(true, None)
      case Some(message) =>
        if raiseOnMismatch then Raise(RuntimeError(message)) else Return(false, Some(message))
    }

    /** `update_cdef`: bring the cdef in step with the data, or, when the
        labels differ, raise or warn and return False leaving it untouched.
        On success a following `check_cdef` passes. */
    method UpdateCdef(raiseOnFail: bool) returns (r: Outcome<bool>)
      requires Valid()
      modifies this`cdef
      ensures Valid()
      ensures PlanUpdate(data, old(cdef)).Assign? ==>
        cdef == PlanUpdate(data, old(cdef)).cdef && r == Return(true, None)
      ensures PlanUpdate(data, old(cdef)).LabelsDiffer? ==> (cdef == old(cdef) &&
        r == (if raiseOnFail then Raise(RuntimeError(LABELS_MESSAGE)) else Return(false, Some(LABELS_MESSAGE))))
      ensures r == Return(true, None) ==> CheckCdef(raiseOnFail) == Return(true, None)
    {
      if data.None? {
        cdef := None;
      } else {
        var dtypes := DtypeCells(data.value.columns);
        if cdef.None? {
          cdef := Some(CDef(Some(DEFAULT_INDEX_NAME), Labels(data.value.columns), [Column(DTYPE_COLUMN, dtypes)]));
        } else if cdef.value.labels == Labels(data.value.columns) {
          cdef := Some(cdef.value.(columns := SetColumn(cdef.value.columns, DTYPE_COLUMN, dtypes)));
        } else if raiseOnFail {
          return Raise(RuntimeError(LABELS_MESSAGE));
        } else {
          return Return(false, Some(LABELS_MESSAGE));
        }
      }
      UpdateThenCheck(data, old(cdef));
      return Return(true, None);
    }

    /** `to_txt` with the file as its returned state: without data it fails
        before touching the file; otherwise it empties the file, then updates
        or strictly checks the cdef (a failure leaves the file empty), fills
        in the index names, and writes the layout piece by piece. */
    method ToTxt(updateCdef: bool, preamble: Option<string>, w: Writer) returns (r: Result<()>, file: FileState)
      requires Valid()
      modifies this`data, this`cdef
      ensures Valid()
      ensures old(data).None? ==>
        r == Err(RuntimeError(NO_DATA_MESSAGE)) && file == Untouched && data == old(data) && cdef == old(cdef)
      ensures old(data).Some? && PrepareForWrite(old(data).value, old(cdef), updateCdef).Err? ==>
        r.Err? && r.error == PrepareForWrite(old(data).value, old(cdef), updateCdef).error &&
        file == Truncated && data == old(data) && cdef == old(cdef)
      ensures old(data).Some? && PrepareForWrite(old(data).value, old(cdef), updateCdef).Ok? ==>
        r == Ok(()) && data.Some? && cdef.Some? &&
        (cdef.value, data.value) == PrepareForWrite(old(data).value, old(cdef), updateCdef).value &&
        file == Written(Layout(meta, preamble, cdef.value, data.value, w))
    {
      if data.None? {
        return Err(RuntimeError(NO_DATA_MESSAGE)), Untouched;
      }
      file := Truncated;
      ghost var prepared := PrepareForWrite(data.value, cdef, updateCdef);
      MismatchIffInconsistent(data, cdef);

      if updateCdef {
        var u := UpdateCdef(true);
        if u.Raise? {
          return Err(u.error), file;
        }
        UpdateThenCheck(data, old(cdef));
      } else {
        var c := CheckCdef(true);
        if c.Raise? {
          return Err(c.error), file;
        }
      }
      assert Consistent(data, cdef);

      // fill in missing names
      if cdef.value.indexName.None? {
        cdef := Some(cdef.value.(indexName := Some(DEFAULT_INDEX_NAME)));
      }
      if data.value.indexName.None? {
        data := Some(data.value.(indexName := Some(cdef.value.labels[0])));
      }
      assert (cdef.value, data.value) == FillNames(CheckedCdef(old(data).value, old(cdef), updateCdef).value, old(data).value);

      var out := WriteText(meta, preamble, cdef.value, data.value, w);
      file := Written(out);
      r := Ok(());
    }

    /** `from_txt` on the text of the file: decode it and construct the
        object, whose advisory check's warning is returned beside it. */
    static method FromTxt(buffer: string, file: string, useDtypes: bool, rd: Reader)
      returns (r: Result<DataPlusMeta>, warning: Option<string>)
      ensures Decode(buffer, file, useDtypes, rd).Err? ==>
        r == Err(Decode(buffer, file, useDtypes, rd).error) && warning.None?
      ensures Decode(buffer, file, useDtypes, rd).Ok? ==>
        var dec := Decode(buffer, file, useDtypes, rd).value;
        r.Ok? && fresh(r.value) && r.value.Valid() &&
        r.value.data == Some(dec.data) && r.value.cdef == Some(dec.cdef) &&
        r.value.meta == (if Truthy(dec.meta) then dec.meta else Dict([])) && r.value.source == file &&
        warning == r.value.CheckCdef(false).warning
    {
      warning := None;
      var sections := Split(buffer, SECTION_BREAK);
      if |sections| != 3 {
        return Err(RuntimeError(file + THREE_SECTIONS_SUFFIX)), warning;
      }
      var meta := rd.yamlLoad(sections[0]);
      if meta.None? {
        return Err(ParseError(0)), warning;
      }
      var cdef := rd.cdefCsv(sections[1], CDEF_READ);
      if cdef.None? {
        return Err(ParseError(1)), warning;
      }
      var plan := PlanDtypes(cdef.value, useDtypes);
      var raw := rd.dataCsv(sections[2], DataRead(plan.forced));
      if raw.None? {
        return Err(ParseError(2)), warning;
      }
      var frame := PostParseDates(raw.value, plan.dates, rd.toDatetime);
      if frame.Err? {
        return Err(frame.error), warning;
      }
      if frame.value == [] {
        return Err(IndexError), warning;
      }
      var data := DataTable(Some(frame.value[0].name), frame.value);
      var obj := new DataPlusMeta(Some(data), cdef, meta.value, Some(file));
      warning := obj.CheckCdef(false).warning;
      return Ok(obj), warning;
    }
  }
}
