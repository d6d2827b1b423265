# DataPlusMeta, modelled in Dafny

pvpltools' `DataPlusMeta` (in `pvpltools/dataplusmeta.py`) bundles four things:

- a data table;
- its column definitions (`cdef`, one row per data label with a `dtype` column);
- a metadata dictionary;
- a source string.

It checks the two tables against each other (`check_cdef`) and brings `cdef` in step with the data (`update_cdef`). It also writes everything to a three-section text file (`to_txt`) and reads it back (`from_txt`). The file holds:

1. yaml metadata;
2. the cdef as csv;
3. the data as csv.

The sections are separated by two blank lines.

This project models that class and proves what it promises:

- the ordered tests of `check_cdef` against an order-free definition of agreement;
- that a successful `update_cdef` makes `check_cdef` pass, and that running it twice changes nothing;
- the step order of `to_txt`, including what happens to the file when it fails;
- that the text `to_txt` writes splits back into exactly three sections, and that `from_txt` recovers the metadata and tables. This needs the parsers to invert the dumps, which the file's own reading settings do not guarantee (see Left out), and is proved for the date/time columns from what `to_datetime` gives back;
- the dtype partition `from_txt` applies;
- the `__repr__` column count.

Modules, one file each:

- `outcomes.dfy` (`Outcomes`): the Option and Result values, the errors the class raises, and `Outcome`. An `Outcome` is a return value with an optional warning, or a raised error.
- `tables.dfy` (`Tables`): the tables reduced to labels, dtype strings and named columns of text cells.
  - The data table is seen as `data.reset_index()` shows it: column 0 is the index.
  - `cdef[name]` and `cdef[name] = cells` work on named columns.
- `consistency.dfy` (`Consistency`): `check_cdef` and `update_cdef` on values, and their lemmas.
- `layout.dfy` (`TextLayout`): the file-format constants, Python's `str.split` and `str.splitlines`, the preamble comment block, and the text `to_txt` writes.
- `reading.dfy` (`Reading`): `from_txt` on the text of the file. This covers the split into sections, the dtype partition, the date post-parsing loop and `set_index`.
- `dataplusmeta.dfy` (`Container`): the class `DataPlusMeta`, whose methods reassign its fields where the source mutates them.
  - `to_txt` returns the final state of its file.
  - `from_txt` takes the text of the file.

The parsers and serialisers the class relies on are fields of arrow type in two records: `Writer` holds the yaml dump and `to_csv`; `Reader` holds the yaml load, `read_csv` and `to_datetime`. The model knows only their types and the exact arguments they receive. A `Reader` function that returns None stands for a parser that raises.

Python's `'utf-8'` codec, unlike `'utf-8-sig'`, keeps a leading U+FEFF. `from_txt` opens the file with `ENCODING = 'utf-8'` (`pvpltools/dataplusmeta.py:54`, `:198`). So the mark stays at the head of section 0, and the model passes it to the yaml loader.

## Model

| member | source | states |
|---|---|---|
| Tables.ColumnCells | pvpltools/dataplusmeta.py:140-144 | `cdef[name]` yields cells exactly when `name in cdef.columns`, and then they are the cells of a column with that name |
| Tables.Truthy | pvpltools/dataplusmeta.py:95 | Python's `bool(meta)`: falsy exactly for None, False, 0, "" and an empty list or dictionary |
| Tables.FirstNamedColumn | pvpltools/dataplusmeta.py:144 | The model's `cdef[name]` reads the first column with that name. pandas raises instead when several columns share the name (see Left out) |
| Tables.UniqueNamedColumn | pvpltools/dataplusmeta.py:144 | When column names are distinct, as pandas needs for `cdef['dtype']` to be one column, `cdef[name]` yields the cells of the only column with that name |
| Tables.SetColumn | pvpltools/dataplusmeta.py:177 | Assigning a column replaces every column of that name in place, keeps every other column, and appends a new one at the end when there was none |
| Tables.ColumnCellsAfterSet | pvpltools/dataplusmeta.py:177 | After `cdef[name] = cells`, reading `cdef[name]` gives `cells` |
| Tables.SetColumnIdempotent | pvpltools/dataplusmeta.py:177 | Assigning the same column twice equals assigning it once |
| Tables.SetColumnKeepsUniqueNames | pvpltools/dataplusmeta.py:177 | `cdef[name] = cells` never makes two columns share a name |
| Tables.NoRows | pvpltools/dataplusmeta.py:284 | `cdef[:0]` keeps the index name and the column names and drops every row |
| Tables.NoDataRows | pvpltools/dataplusmeta.py:290 | `data.iloc[:0]` keeps the index name, the labels and the dtypes and drops every row |
| Consistency.Mismatch | pvpltools/dataplusmeta.py:126-149 | The message of `check_cdef`'s first failing test is always one of its four messages |
| Consistency.MismatchIffInconsistent | pvpltools/dataplusmeta.py:118-157 | The ordered tests pass exactly when the tables agree: both absent, or one cdef row per data label in order, with a first `dtype` column equal to the data dtypes. Both directions are proved |
| Consistency.MismatchPriority | pvpltools/dataplusmeta.py:134-149 | A label mismatch is reported whatever the dtypes. A missing `dtype` column is reported only once labels match, and a dtype mismatch only after both earlier tests pass |
| Consistency.PlanUpdate | pvpltools/dataplusmeta.py:167-185 | `update_cdef` fails exactly when both tables are present and the labels differ. Without data it clears cdef. With data, success always leaves a cdef |
| Consistency.UpdateThenCheck | pvpltools/dataplusmeta.py:159-186 | Whenever `update_cdef` succeeds, a following `check_cdef` finds no mismatch |
| Consistency.UpdateIdempotent | pvpltools/dataplusmeta.py:159-186 | A second `update_cdef` leaves the same cdef as the first |
| Consistency.UpdateKeepsDescriptions | pvpltools/dataplusmeta.py:176-177 | With matching labels only the `dtype` column changes. Index name, rows, row order and every other column are kept. A missing `dtype` column is appended, and the new column holds the data dtypes |
| Consistency.UpdateKeepsUniqueNames | pvpltools/dataplusmeta.py:159-186 | `update_cdef` leaves a cdef with distinct column names, whether it builds a new one or updates one that had distinct names |
| Consistency.NewCdefShape | pvpltools/dataplusmeta.py:172-174 | Without a cdef, the new one has a single `dtype` column, one row per data label in data order, and an index named "column" |
| TextLayout.FindFrom | pvpltools/dataplusmeta.py:201 | The search finds the first occurrence of the separator at or after a position, or reports that there is none |
| TextLayout.Split | pvpltools/dataplusmeta.py:201 | `str.split` always yields at least one part |
| TextLayout.SplitJoin | pvpltools/dataplusmeta.py:201 | Joining the parts of `str.split` with the separator gives back the text |
| TextLayout.SplitPartsFree | pvpltools/dataplusmeta.py:201 | No part of `str.split` contains the separator |
| TextLayout.SplitNothing | pvpltools/dataplusmeta.py:201 | Text without the separator splits into itself alone |
| TextLayout.SplitAfter | pvpltools/dataplusmeta.py:201 | A part that ends cleanly before the separator comes off as the first part, and the rest splits on its own |
| TextLayout.BreakAt | pvpltools/dataplusmeta.py:201 | The section break is three consecutive newlines |
| TextLayout.SplitsCleanlyIff | pvpltools/dataplusmeta.py:201 | A section ends cleanly before the break exactly when it holds no break and does not end with a newline. Both directions are proved |
| TextLayout.SplitLines | pvpltools/dataplusmeta.py:272 | `str.splitlines` gives no lines exactly for the empty text, and never more lines than characters |
| TextLayout.LineLength | pvpltools/dataplusmeta.py:272 | A line runs up to the first of the characters `str.splitlines` breaks at |
| TextLayout.SplitLinesStep | pvpltools/dataplusmeta.py:272 | When a boundary ends the first line, `str.splitlines` gives that line, which holds no boundary, followed by the lines after the boundary ("\r\n" counting as one) |
| TextLayout.SplitLinesHaveNoBreaks | pvpltools/dataplusmeta.py:272 | No line from `str.splitlines` contains a line-break character |
| TextLayout.SplitLinesJoin | pvpltools/dataplusmeta.py:272 | For text broken only by "\n" and not ending in one, joining the lines with "\n" gives back the text |
| TextLayout.CommentLines | pvpltools/dataplusmeta.py:271-274 | The preamble loop writes nothing exactly when there are no lines, and otherwise starts with `#` and ends with a newline |
| TextLayout.PreambleBlock | pvpltools/dataplusmeta.py:270-275 | A missing or empty preamble writes nothing. Otherwise the block starts with `#` and ends with a blank line |
| TextLayout.CommentLinesNoPair | pvpltools/dataplusmeta.py:271-275 | The preamble's `# ` comment lines never contain two consecutive newlines, and they end with a single newline |
| TextLayout.Layout | pvpltools/dataplusmeta.py:268-292 | The written text starts with the BOM, the preamble block, the yaml dump and the section separator, and ends with the data body |
| TextLayout.LayoutSplits | pvpltools/dataplusmeta.py:268-292 | Splitting the written text on "\n\n\n" (line 201) gives exactly three sections: BOM, preamble and yaml dump less its final newline; cdef header, blank line and body less its final newline; data header, blank line and body. This needs the yaml dump and the cdef body to end in "\n". Sections 0 and 1 must end cleanly: no break, including across the joins of header, blank line and body, and no trailing newline. Section 2 must hold no break |
| TextLayout.FirstSectionClean | pvpltools/dataplusmeta.py:268-277 | Whatever the preamble, the first section ends cleanly whenever the yaml dump is free of breaks and of leading and trailing blank lines |
| Reading.IsDatetime | pvpltools/dataplusmeta.py:219 | `dtype.str.startswith('datetime')`: the dtype string begins with "datetime" |
| Reading.LabelledDtypes | pvpltools/dataplusmeta.py:216 | `dropna` keeps at most one pair per row, and every row when every dtype is present |
| Reading.DateLabels | pvpltools/dataplusmeta.py:219-228 | The date/time labels are at most the kept pairs, and a leading date/time pair leads them |
| Reading.ForcedDtypes | pvpltools/dataplusmeta.py:222 | `to_dict` maps the label of the last non-date/time pair to its dtype: a later pair wins |
| Reading.PlanDtypes | pvpltools/dataplusmeta.py:215-234 | Without `use_dtypes`, or without a `dtype` column, no dtype is forced and no column is post-parsed |
| Reading.LabelledDtypesMembers | pvpltools/dataplusmeta.py:216 | `dropna` keeps exactly the (label, dtype) rows whose dtype is present. Both directions are proved |
| Reading.PartitionCovers | pvpltools/dataplusmeta.py:219-228 | Every kept dtype lands in a group: date/time ones among the columns to post-parse, the others among the dtypes forced on `read_csv`. Nothing lands in a group without such a row |
| Reading.PartitionExact | pvpltools/dataplusmeta.py:215-229 | With distinct labels, each label's dtype alone decides its fate. Missing: neither group. Prefixed `datetime`: post-parsed only. Any other: forced on `read_csv`, unchanged, and only there |
| Reading.FindColumn | pvpltools/dataplusmeta.py:229 | `data[col]` finds a column with that label, and finds none exactly when the label is absent |
| Reading.ConvertDates | pvpltools/dataplusmeta.py:229 | A label missing from the data is a KeyError. On success only the first column with that label changes: it gets the cells `to_datetime` gives and the date/time dtype |
| Reading.PostParsed | pvpltools/dataplusmeta.py:228-229 | Post-parsing keeps the number of columns, and with no listed columns returns the data as read |
| Reading.PostParseDates | pvpltools/dataplusmeta.py:227-229 | The loop gives the result of converting the listed columns one after another, stopping at the first error |
| Reading.PostParsedShape | pvpltools/dataplusmeta.py:227-229 | Post-parsing keeps the labels and their order and leaves unlisted columns untouched. Each listed column ends with a date/time dtype, and a listed label missing from the data is an error |
| Reading.DateLabelsDistinct | pvpltools/dataplusmeta.py:216-228 | With distinct cdef labels, the loop at line 228 visits each column at most once |
| Reading.PostParsedRestores | pvpltools/dataplusmeta.py:227-229 | Converting exactly the date/time columns, each from text `to_datetime` turns back into the written cells, gives the written columns |
| Reading.DatesRestored | pvpltools/dataplusmeta.py:215-229 | With a consistent cdef with distinct labels, a parser that returns what was written and date/time dtypes of "datetime64[ns]", the dtype partition and the loop give back the written data columns |
| Reading.SetIndexFirst | pvpltools/dataplusmeta.py:237 | `set_index(data.columns[0])` fails exactly on a frame without columns. Otherwise it names the first column as the index and keeps every column in order |
| Reading.Decode | pvpltools/dataplusmeta.py:197-237 | A text that does not split into three sections fails with "<file> does not have three sections.". A success has the first column as its named index |
| Reading.RoundTrip | pvpltools/dataplusmeta.py:201-239 | Reading back what `to_txt` wrote, with `use_dtypes`, gives the same metadata, cdef and data. The date/time half is proved from `DatesRestored`. It needs sections free of the break, the yaml and cdef parsers to invert their dumps, and a data parser that returns what was written; `#`, leading spaces and carriage returns in cells break these (see Left out). The cdef must agree with the data and have distinct labels, every date/time dtype must be "datetime64[ns]", and the data index must be named, as `to_txt` makes it |
| Container.NatToString | pvpltools/dataplusmeta.py:115 | '%d' writes at least one decimal digit and no other character |
| Container.NatToStringRoundTrip | pvpltools/dataplusmeta.py:115-116 | '%d' writes decimal digits, with no leading zero, that read back as the number |
| Container.CheckedCdef | pvpltools/dataplusmeta.py:256-259 | The strict update or check in `to_txt` fails exactly as `update_cdef` or `check_cdef` would, with their message. Otherwise the tables agree. A strict update leaves the cdef `update_cdef` plans, and a strict check keeps the cdef as it was |
| Container.ConsistentIgnoresNames | pvpltools/dataplusmeta.py:261-266 | Renaming either index never affects whether the tables agree |
| Container.FillNames | pvpltools/dataplusmeta.py:261-266 | A missing cdef index name becomes "column", a missing data index name becomes the first cdef label, given names are kept, and the tables still agree |
| Container.PrepareForWrite | pvpltools/dataplusmeta.py:250-266 | `to_txt` writes tables that agree, with the data columns untouched and both indexes named, the data index after the first cdef label. Otherwise it stops with the strict step's error |
| Container.WriteText | pvpltools/dataplusmeta.py:268-292 | The writes of `to_txt`, in order and with the preamble loop, produce exactly the layout whose split is proved by `LayoutSplits` |
| Container.DataPlusMeta.constructor | pvpltools/dataplusmeta.py:92-101 | The fields hold the arguments, with falsy metadata replaced by an empty dictionary and a missing source by "" |
| Container.DataPlusMeta.DataColumnCount | pvpltools/dataplusmeta.py:107-110 | 0 without data. Otherwise the data labels counted with the index, which is the number of cdef rows whenever the tables agree |
| Container.DataPlusMeta.Repr | pvpltools/dataplusmeta.py:103-116 | "DataPlusMeta object with <n> data columns from <source>.". Between the fixed text stand only decimal digits, with no leading zero unless the count is 0, and they read back as the column count. An empty source shows as "unknown source" |
| Container.DataPlusMeta.CheckCdef | pvpltools/dataplusmeta.py:118-157 | Raises exactly when asked to and the tables disagree, with the first failing test's message. Otherwise returns whether they agree, warning with that message when they do not. Both-absent returns True and one-absent is the missing message. Nothing changes |
| Container.DataPlusMeta.UpdateCdef | pvpltools/dataplusmeta.py:159-186 | On success cdef is the planned one and True is returned. On a label mismatch cdef is untouched and the labels message is raised or warned, with False. After success `check_cdef` passes |
| Container.DataPlusMeta.ToTxt | pvpltools/dataplusmeta.py:241-293 | No data: fails with "There is no data to store." and the file untouched. Strict step fails: that error, the file emptied, the tables unchanged. Otherwise the tables are prepared and the file holds exactly their layout |
| Container.DataPlusMeta.FromTxt | pvpltools/dataplusmeta.py:188-239 | A decoding error is returned as is. Otherwise a fresh object holds the decoded tables, the metadata (or {} when falsy) and the file name as source, with the warning its advisory check gives |

## Left out

- pandas internals are outside the model:
  - the formatting, quoting and parsing of `to_csv` and `read_csv`;
  - the float parsing selected by `float_precision='round_trip'`;
  - how `dtypes.astype(str)` derives dtype strings, which the model treats as given attributes of each column;
  - cell values, which are carried as opaque text.
- Label comparison (lines 136 and 176) is pandas' element-wise Index comparison and is modelled as sequence equality. Its behaviour on unequal lengths belongs to pandas, not to this code.
- ruamel.yaml's load and dump are uninterpreted functions. `TextLayout.LayoutSplits` and `Reading.RoundTrip` take as preconditions what they need of the dumps; none of these is proved:
  - the yaml dump and the cdef body end in "\n";
  - sections 0 and 1 hold no "\n\n\n", even across the joins of header, blank line and body, and do not end in a newline;
  - section 2 holds no "\n\n\n".
- Reading.RoundTrip: is proved only with `use_dtypes`, a cdef with distinct labels, and every date/time dtype equal to "datetime64[ns]", the dtype `to_datetime` gives. A column of another date/time dtype whose text matches `DATE_FORMAT`, such as `datetime64[s]`, comes back as "datetime64[ns]" and so does not round-trip. A tz-aware column such as `datetime64[ns, UTC]` is written with an offset (`+00:00`) that `to_datetime` with `DATE_FORMAT` and its default exact match rejects (line 229), so `from_txt` raises; in the model that is `to_datetime` returning None, and `Decode` fails with `DateParseError`. Without `use_dtypes` the dtypes come from `read_csv`'s inference, which is not modelled.
- Reading.RoundTrip: its parser preconditions (the cdef parser returns the cdef, and the data parser returns what was written) are assumptions, and this file's own reading settings break them on ordinary content. None of the following is modelled:
  - `comment=COMMENT_CHAR` (line 63): `read_csv` ends a row at an unquoted `#`, and `to_csv` does not quote `#`. So a cdef description "sensor #2" comes back as "sensor ", with the rest of that row missing.
  - `skipinitialspace=True` (line 62): leading spaces of an unquoted cell are dropped on reading.
  - The file is read in text mode with universal newlines (line 198): a "\r" or "\r\n" inside a quoted cell comes back as "\n". `Reading.RoundTrip` treats the text read as exactly the text written.
- A cdef with several columns named `dtype` makes `cdef['dtype']` a DataFrame, and pandas raises ValueError at line 144 when the test compares it. The model reads the first such column instead. `Tables.UniqueNames` is the shape in which the two agree, and `update_cdef` keeps it (`Consistency.UpdateKeepsUniqueNames`).
- Aliasing is not modelled. `update_cdef` (line 177) and `to_txt` (lines 263, 266) mutate DataFrames in place, and a caller that still holds those frames sees the change. The model's fields hold values, so only the object's own fields change.
- Date parsing with `DATE_FORMAT` is an uninterpreted `to_datetime`. Fractional seconds, which the source marks as a TODO, are not modelled.
- File I/O: opening, encoding and truncation.
  - `ToTxt` returns the file's final state: untouched, emptied or written.
  - `FromTxt` receives the already-read text.
  - A failure to open the file is not modelled.
- The exceptions the collaborators raise are reduced to a parse error naming the section, or to `DateParseError`. Their Python types are not modelled.
- Container.DataPlusMeta.constructor: the warning its advisory check emits is not returned by the constructor, because a constructor has no result. `FromTxt` returns it beside the object, and `CheckCdef(false)` yields it for any object.
- Container.DataPlusMeta.Repr: uses the fixed class name "DataPlusMeta". A subclass would print its own name.
- The fresh RangeIndex of the parsed frame is not modelled. `set_index` names the first column as the index, and the column stays first in the reset-index view.
- `Reading.PartitionExact` assumes distinct cdef labels. With duplicates, `ForcedDtypes` keeps the last dtype, as `to_dict` does.
- The metadata value covers null, booleans, integers, strings, lists and dictionaries. Floats and other yaml types are not modelled, because only their truthiness is used.
- `read_csv` without a `dtype` argument (line 233) is modelled as a read with an empty dtype map.
- The unused `PREAMBLE` constant (lines 45-52) is not modelled.
- `docs/conf.py` is not part of this model: it is Sphinx configuration with no logic.
