/** The three-section text layout of a DataPlusMeta file: the constants of
    `pvpltools/dataplusmeta.py` (lines 53-66), Python's `str.split` and
    `str.splitlines`, and the text `to_txt` assembles (lines 268-292). */
module TextLayout {
  import opened Outcomes
  import opened Tables

  const UTF8_BOM: char := '\U{FEFF}'
  const SECTION_SEPARATOR := "\n\n"
  const COMMENT_CHAR: char := '#'
  const COMMENT_LINE := [COMMENT_CHAR] + "\n"
  const BLANK_LINE := "\n"
  const DATE_FORMAT := "%Y-%m-%d %H:%M:%S"

  /** What `from_txt` splits a file on: the end of a line and two blank lines. */
  const SECTION_BREAK := "\n" + SECTION_SEPARATOR

  /** The keyword arguments `pd.read_csv` receives (READ_CSV_OPTIONS). */
  datatype ReadCsvOptions = ReadCsvOptions(skipInitialSpace: bool, comment: char, floatPrecision: string)
  const READ_CSV_OPTIONS := ReadCsvOptions(true, COMMENT_CHAR, "round_trip")

  /** The keyword arguments `DataFrame.to_csv` receives in `to_txt`. */
  datatype ToCsvOptions = ToCsvOptions(header: bool, index: bool, lineTerminator: string)
  /** `to_csv(f, index=True, lineterminator='\n')`: header row included. */
  const WITH_HEADER := ToCsvOptions(true, true, "\n")
  /** `to_csv(f, header=False, index=True, lineterminator='\n')`. */
  const WITHOUT_HEADER := ToCsvOptions(false, true, "\n")

  /** The serialisers `to_txt` hands its tables to (ruamel.yaml's dump and
      pandas' `to_csv`); the model knows nothing of them but their types. */
  datatype Writer = Writer(
    yamlDump: Meta -> string,
    cdefCsv: (CDef, ToCsvOptions) -> string,
    dataCsv: (DataTable, ToCsvOptions) -> string)

  // ---------------------------------------------------------------------
  // Python's str.split(sep)

  /** `sep` stands in `s` at position `i`. */
  predicate OccursAt(s: string, sep: string, i: nat) {
    i + |sep| <= |s| && s[i..i + |sep|] == sep
  }

  /** `s` holds no occurrence of `sep`. */
  ghost predicate NoOccurrence(s: string, sep: string) {
    forall j: nat :: !OccursAt(s, sep, j)
  }

  /** The first position at or after `from` where `sep` stands, as `str.find` scans. */
  function FindFrom(s: string, sep: string, from: nat): (r: Option<nat>)
    requires |sep| > 0
    ensures r.Some? ==> from <= r.value && OccursAt(s, sep, r.value)
    ensures r.Some? ==> forall j: nat :: from <= j < r.value ==> !OccursAt(s, sep, j)
    ensures r.None? ==> forall j: nat :: from <= j ==> !OccursAt(s, sep, j)
    decreases |s| - from
  {
    if from + |sep| > |s| then None
    else if s[from..from + |sep|] == sep then Some(from)
    else FindFrom(s, sep, from + 1)
  }

  /** `s.split(sep)`: cut at each occurrence of `sep`, scanning left to right
      and resuming after each cut. */
  function Split(s: string, sep: string): (parts: seq<string>)
    requires |sep| > 0
    ensures |parts| >= 1
    decreases |s|
  {
    match FindFrom(s, sep, 0)
    case None => [s]
    case Some(i) => [s[..i]] + Split(s[i + |sep|..], sep)
  }

  /** `sep.join(parts)` */
  function Join(parts: seq<string>, sep: string): string
    requires |parts| >= 1
  {
    if |parts| == 1 then parts[0] else parts[0] + sep + Join(parts[1..], sep)
  }

  /** Splitting loses nothing: joining the parts with the separator gives
      the text back. */
  lemma {:induction false} SplitJoin(s: string, sep: string)
    requires |sep| > 0
    ensures Join(Split(s, sep), sep) == s
    decreases |s|
  {
    match FindFrom(s, sep, 0)
    case None =>
    case Some(i) =>
      var head, rest := s[..i], s[i + |sep|..];
      var tail := Split(rest, sep);
      SplitJoin(rest, sep);
      assert Split(s, sep) == [head] + tail;
      JoinCons(head, tail, sep);
      assert s == head + sep + rest by {
        assert s[i..i + |sep|] == sep;
        assert s == head + s[i..i + |sep|] + rest;
      }
  }

  lemma JoinCons(head: string, tail: seq<string>, sep: string)
    requires |tail| >= 1
    ensures Join([head] + tail, sep) == head + sep + Join(tail, sep)
  {
    assert ([head] + tail)[1..] == tail;
  }

  /** No part that `split` returns holds the separator. */
  lemma {:induction false} SplitPartsFree(s: string, sep: string)
    requires |sep| > 0
    ensures forall k :: 0 <= k < |Split(s, sep)| ==> NoOccurrence(Split(s, sep)[k], sep)
    decreases |s|
  {
    match FindFrom(s, sep, 0)
    case None =>
    case Some(i) =>
      var rest := s[i + |sep|..];
      SplitPartsFree(rest, sep);
      var head := s[..i];
      forall j: nat ensures !OccursAt(head, sep, j) {
        if j + |sep| <= |head| {
          assert head[j..j + |sep|] == s[j..j + |sep|];
          assert !OccursAt(s, sep, j);
        }
      }
      var parts := Split(s, sep);
      assert parts == [head] + Split(rest, sep);
      forall k | 0 <= k < |parts| ensures NoOccurrence(parts[k], sep) {
        if k > 0 { assert parts[k] == Split(rest, sep)[k - 1]; }
      }
  }

  /** Every position of `a` is too early for `sep` to start there in `a + sep`:
      the first occurrence in `a + sep + b` is the one just after `a`. */
  predicate SplitsCleanly(a: string, sep: string) {
    forall j: nat :: j < |a| ==> !OccursAt(a + sep, sep, j)
  }

  /** A text without the separator is not split. */
  lemma {:induction false} SplitNothing(s: string, sep: string)
    requires |sep| > 0 && NoOccurrence(s, sep)
    ensures Split(s, sep) == [s]
  {
    match FindFrom(s, sep, 0)
    case None =>
    case Some(i) =>
  }

  /** When `a` ends cleanly, `a + sep + b` is cut right after `a`. */
  lemma {:induction false} SplitAfter(a: string, sep: string, b: string)
    requires |sep| > 0 && SplitsCleanly(a, sep)
    ensures Split(a + sep + b, sep) == [a] + Split(b, sep)
  {
    var s := a + sep + b;
    assert s[|a|..|a| + |sep|] == sep;
    assert OccursAt(s, sep, |a|);
    forall j: nat | j < |a| ensures !OccursAt(s, sep, j) {
      if j + |sep| <= |a| + |sep| {
        assert s[j..j + |sep|] == (a + sep)[j..j + |sep|];
        assert !OccursAt(a + sep, sep, j);
      }
    }
    match FindFrom(s, sep, 0)
    case None =>
      assert false;
    case Some(i) =>
      assert i == |a|;
      assert s[..i] == a;
      assert s[i + |sep|..] == b;
  }

  // ---------------------------------------------------------------------
  // The section break "\n\n\n" at character level

  /** `s[i..i+3] == "\n\n\n"`, character by character. */
  lemma BreakAt(s: string, i: nat)
    ensures OccursAt(s, SECTION_BREAK, i) <==>
      i + 3 <= |s| && s[i] == '\n' && s[i + 1] == '\n' && s[i + 2] == '\n'
  {
    if i + 3 <= |s| && s[i] == '\n' && s[i + 1] == '\n' && s[i + 2] == '\n' {
      assert s[i..i + 3] == SECTION_BREAK;
    }
  }

  /** A section ends cleanly before the break exactly when it holds no break
      and does not end with a newline. */
  lemma SplitsCleanlyIff(a: string)
    ensures SplitsCleanly(a, SECTION_BREAK) <==>
      NoOccurrence(a, SECTION_BREAK) && (a == [] || a[|a| - 1] != '\n')
  {
    var t := a + SECTION_BREAK;
    if SplitsCleanly(a, SECTION_BREAK) {
      forall j: nat ensures !OccursAt(a, SECTION_BREAK, j) {
        BreakAt(a, j);
        BreakAt(t, j);
      }
      if a != [] && a[|a| - 1] == '\n' {
        BreakAt(t, |a| - 1);
        assert false;
      }
    }
    if NoOccurrence(a, SECTION_BREAK) && (a == [] || a[|a| - 1] != '\n') {
      forall j: nat | j < |a| ensures !OccursAt(t, SECTION_BREAK, j) {
        BreakAt(t, j);
        BreakAt(a, j);
      }
    }
  }

  /** Two texts joined hold no break when neither does and none forms across the seam. */
  lemma NoBreakConcat(x: string, y: string)
    requires NoOccurrence(x, SECTION_BREAK) && NoOccurrence(y, SECTION_BREAK)
    requires !(|x| >= 1 && x[|x| - 1] == '\n' && |y| >= 2 && y[0] == '\n' && y[1] == '\n')
    requires !(|x| >= 2 && x[|x| - 2] == '\n' && x[|x| - 1] == '\n' && |y| >= 1 && y[0] == '\n')
    ensures NoOccurrence(x + y, SECTION_BREAK)
  {
    forall j: nat ensures !OccursAt(x + y, SECTION_BREAK, j) {
      BreakAt(x + y, j);
      if j + 3 <= |x| {
        BreakAt(x, j);
      } else if j >= |x| {
        BreakAt(y, j - |x|);
      }
    }
  }

  /** `s[j..j+2] == "\n\n"` */
  predicate PairAt(s: string, j: nat) {
    j + 1 < |s| && s[j] == '\n' && s[j + 1] == '\n'
  }

  /** `s` holds no blank line: no two newlines in a row. */
  ghost predicate NoPair(s: string) {
    forall j: nat :: !PairAt(s, j)
  }

  lemma NoPairConcat(x: string, y: string)
    requires NoPair(x) && NoPair(y)
    requires !(|x| >= 1 && x[|x| - 1] == '\n' && |y| >= 1 && y[0] == '\n')
    ensures NoPair(x + y)
  {
    forall j: nat ensures !PairAt(x + y, j) {
      if j + 2 <= |x| {
        assert !PairAt(x, j);
      } else if j >= |x| {
        assert !PairAt(y, j - |x|);
      }
    }
  }

  lemma NoPairNoBreak(s: string)
    requires NoPair(s)
    ensures NoOccurrence(s, SECTION_BREAK)
  {
    forall j: nat ensures !OccursAt(s, SECTION_BREAK, j) {
      BreakAt(s, j);
      assert !PairAt(s, j);
    }
  }

  // ---------------------------------------------------------------------
  // Python's str.splitlines() and the preamble

  /** The line boundaries `str.splitlines` recognises. */
  predicate IsLineBreak(c: char) {
    c == '\n' || c == '\r' || c == '\U{B}' || c == '\U{C}' || c == '\U{1C}' || c == '\U{1D}' ||
    c == '\U{1E}' || c == '\U{85}' || c == '\U{2028}' || c == '\U{2029}'
  }

  /** The length of the first line of `s`, without its boundary. */
  function LineLength(s: string): (n: nat)
    ensures n <= |s|
    ensures forall j :: 0 <= j < n ==> !IsLineBreak(s[j])
    ensures n < |s| ==> IsLineBreak(s[n])
  {
    if s == [] || IsLineBreak(s[0]) then 0 else 1 + LineLength(s[1..])
  }

  /** `s.splitlines()`: the lines of `s` without their boundaries, "\r\n"
      counting as one boundary and no empty line after a final boundary. */
  function SplitLines(s: string): (lines: seq<string>)
    ensures lines == [] <==> s == []
    ensures |lines| <= |s|
    decreases |s|
  {
    if s == [] then []
    else
      var n := LineLength(s);
      if n == |s| then [s]
      else
        [s[..n]] + SplitLines(s[NextLineStart(s, n)..])
  }

  /** `line` holds no line boundary. */
  predicate NoBreaks(line: string) {
    forall j :: 0 <= j < |line| ==> !IsLineBreak(line[j])
  }

  /** Where the first line of `s` ends before the text does, the next line
      starts after its boundary, "\r\n" counting as one. */
  function NextLineStart(s: string, n: nat): (next: nat)
    requires n < |s|
    ensures n < next <= |s|
  {
    if s[n] == '\r' && n + 1 < |s| && s[n + 1] == '\n' then n + 2 else n + 1
  }

  lemma SplitLinesStep(s: string)
    requires s != [] && LineLength(s) < |s|
    ensures var n := LineLength(s);
      SplitLines(s) == [s[..n]] + SplitLines(s[NextLineStart(s, n)..]) && NoBreaks(s[..n])
  {
  }

  /** No line `splitlines` returns holds a line boundary. */
  lemma {:induction false} SplitLinesHaveNoBreaks(s: string)
    ensures forall k :: 0 <= k < |SplitLines(s)| ==> NoBreaks(SplitLines(s)[k])
    decreases |s|
  {
    if s != [] {
      var n := LineLength(s);
      if n < |s| {
        var rest := s[NextLineStart(s, n)..];
        SplitLinesStep(s);
        SplitLinesHaveNoBreaks(rest);
        var lines := SplitLines(s);
        forall k | 0 <= k < |lines| ensures NoBreaks(lines[k]) {
          if k > 0 { assert lines[k] == SplitLines(rest)[k - 1]; }
        }
      } else {
        assert SplitLines(s) == [s];
      }
    }
  }

  /** `s` has no line boundary other than "\n". */
  predicate OnlyNewlines(s: string) {
    forall j :: 0 <= j < |s| ==> s[j] == '\n' || !IsLineBreak(s[j])
  }

  /** Text without line boundaries other than "\n", and not ending in one, is
      its lines joined by "\n". */
  lemma {:induction false} SplitLinesJoin(s: string)
    requires s != [] && s[|s| - 1] != '\n' && OnlyNewlines(s)
    ensures |SplitLines(s)| >= 1 && Join(SplitLines(s), "\n") == s
    decreases |s|
  {
    var n := LineLength(s);
    if n < |s| {
      SplitLinesAtNewline(s);
      SplitLinesJoin(s[n + 1..]);
      JoinLineBack(s, n, SplitLines(s[n + 1..]));
    }
  }

  /** A first line, its newline and the rest joined give the text back. */
  lemma JoinLineBack(s: string, n: nat, tail: seq<string>)
    requires n < |s| && s[n] == '\n' && |tail| >= 1 && Join(tail, "\n") == s[n + 1..]
    ensures Join([s[..n]] + tail, "\n") == s
  {
    JoinCons(s[..n], tail, "\n");
    CutAt(s, n);
  }

  /** Cutting a text around one of its characters and gluing it back. */
  lemma CutAt(s: string, n: nat)
    requires n < |s|
    ensures s[..n] + [s[n]] + s[n + 1..] == s
  {
    assert s == s[..n] + s[n..];
    assert s[n..] == [s[n]] + s[n + 1..];
  }

  /** Where the first boundary of such a text is a "\n", its first line comes
      off and the rest is again such a text. */
  lemma SplitLinesAtNewline(s: string)
    requires s != [] && s[|s| - 1] != '\n' && OnlyNewlines(s) && LineLength(s) < |s|
    ensures var n := LineLength(s);
      s[n] == '\n' && n + 1 < |s| &&
      SplitLines(s) == [s[..n]] + SplitLines(s[n + 1..]) &&
      s[n + 1..][|s[n + 1..]| - 1] != '\n' && OnlyNewlines(s[n + 1..])
  {
    var n := LineLength(s);
    assert s[n] == '\n';
    OnlyNewlinesSuffix(s, n + 1);
  }

  lemma OnlyNewlinesSuffix(s: string, i: nat)
    requires OnlyNewlines(s) && i <= |s|
    ensures OnlyNewlines(s[i..])
  {
    forall j | 0 <= j < |s| - i ensures s[i..][j] == '\n' || !IsLineBreak(s[i..][j]) {
      assert s[i..][j] == s[i + j];
    }
  }

  /** Each line written as "# " + line + "\n", in order. */
  function CommentLines(lines: seq<string>): (c: string)
    ensures c == [] <==> lines == []
    ensures c != [] ==> c[0] == COMMENT_CHAR && c[|c| - 1] == '\n'
  {
    if lines == [] then ""
    else CommentLines(lines[..|lines| - 1]) + [COMMENT_CHAR] + " " + lines[|lines| - 1] + "\n"
  }

  /** What `to_txt` writes for its preamble: nothing when the preamble is None
      or empty, else its comment lines and one blank line. */
  function PreambleBlock(preamble: Option<string>): (r: string)
    ensures r == [] <==> preamble.None? || preamble.value == ""
    ensures r != [] ==> r[0] == COMMENT_CHAR && |r| >= 2 && r[|r| - 2] == '\n' && r[|r| - 1] == '\n'
  {
    if preamble.None? || preamble.value == "" then ""
    else CommentLines(SplitLines(preamble.value)) + BLANK_LINE
  }

  /** Comment lines built from lines without newlines hold no blank line and,
      when there are any, end with a newline that follows something else. */
  lemma {:induction false} CommentLinesNoPair(lines: seq<string>)
    requires forall k :: 0 <= k < |lines| ==> NoBreaks(lines[k])
    ensures NoPair(CommentLines(lines))
    ensures var c := CommentLines(lines);
      c == [] || (|c| >= 2 && c[|c| - 1] == '\n' && c[|c| - 2] != '\n')
  {
    if lines != [] {
      var init := lines[..|lines| - 1];
      var last := lines[|lines| - 1];
      CommentLinesNoPair(init);
      var seg := [COMMENT_CHAR] + " " + last + "\n";
      forall j: nat ensures !PairAt(seg, j) {
        if j + 2 < |seg| {
          assert seg[j + 1] == if j == 0 then ' ' else last[j - 1];
        } else if j + 2 == |seg| {
          assert seg[j] == if j == 1 then ' ' else last[j - 2];
        }
      }
      NoPairConcat(CommentLines(init), seg);
      assert CommentLines(lines) == CommentLines(init) + seg;
    }
  }

  // ---------------------------------------------------------------------
  // The text to_txt writes

  /** `s` minus its last character (the newline a dump ends with). */
  function Chop(s: string): string
    requires |s| >= 1
  {
    s[..|s| - 1]
  }

  /** The file `to_txt` writes, piece by piece: BOM, preamble, yaml dump,
      separator, cdef header, blank line, cdef body, separator, data header,
      blank line, data body. */
  function Layout(meta: Meta, preamble: Option<string>, cdef: CDef, data: DataTable, w: Writer): (r: string)
    ensures var head := [UTF8_BOM] + PreambleBlock(preamble) + w.yamlDump(meta) + SECTION_SEPARATOR;
      |head| <= |r| && r[..|head|] == head
    ensures var body := w.dataCsv(data, WITHOUT_HEADER); |body| <= |r| && r[|r| - |body|..] == body
  {
    [UTF8_BOM] + PreambleBlock(preamble) + w.yamlDump(meta) + SECTION_SEPARATOR
    + w.cdefCsv(NoRows(cdef), WITH_HEADER) + BLANK_LINE + w.cdefCsv(cdef, WITHOUT_HEADER)
    + SECTION_SEPARATOR
    + w.dataCsv(NoDataRows(data), WITH_HEADER) + BLANK_LINE + w.dataCsv(data, WITHOUT_HEADER)
  }

  /** The three sections `from_txt` should find in that file. */
  function Sections(meta: Meta, preamble: Option<string>, cdef: CDef, data: DataTable, w: Writer): seq<string>
    requires |w.yamlDump(meta)| >= 1 && |w.cdefCsv(cdef, WITHOUT_HEADER)| >= 1
  {
    [ [UTF8_BOM] + PreambleBlock(preamble) + Chop(w.yamlDump(meta)),
      w.cdefCsv(NoRows(cdef), WITH_HEADER) + BLANK_LINE + Chop(w.cdefCsv(cdef, WITHOUT_HEADER)),
      w.dataCsv(NoDataRows(data), WITH_HEADER) + BLANK_LINE + w.dataCsv(data, WITHOUT_HEADER) ]
  }

  /** The written pieces, regrouped around the two section breaks. */
  lemma Regroup(head: string, y: string, cdefHeader: string, cdefBody: string, dataHeader: string, dataBody: string)
    requires |y| >= 1 && y[|y| - 1] == '\n' && |cdefBody| >= 1 && cdefBody[|cdefBody| - 1] == '\n'
    ensures head + y + SECTION_SEPARATOR + cdefHeader + BLANK_LINE + cdefBody + SECTION_SEPARATOR
        + dataHeader + BLANK_LINE + dataBody
      == (head + Chop(y)) + SECTION_BREAK
        + ((cdefHeader + BLANK_LINE + Chop(cdefBody)) + SECTION_BREAK + (dataHeader + BLANK_LINE + dataBody))
  {
    assert y == Chop(y) + "\n";
    assert cdefBody == Chop(cdefBody) + "\n";
  }

  /** The text `to_txt` writes splits back into exactly its three sections,
      provided the yaml dump and the cdef body end with a newline, the first
      two sections end cleanly and the last holds no break. */
  lemma LayoutSplits(meta: Meta, preamble: Option<string>, cdef: CDef, data: DataTable, w: Writer)
    requires |w.yamlDump(meta)| >= 1 && w.yamlDump(meta)[|w.yamlDump(meta)| - 1] == '\n'
    requires |w.cdefCsv(cdef, WITHOUT_HEADER)| >= 1 && w.cdefCsv(cdef, WITHOUT_HEADER)[|w.cdefCsv(cdef, WITHOUT_HEADER)| - 1] == '\n'
    requires SplitsCleanly(Sections(meta, preamble, cdef, data, w)[0], SECTION_BREAK)
    requires SplitsCleanly(Sections(meta, preamble, cdef, data, w)[1], SECTION_BREAK)
    requires NoOccurrence(Sections(meta, preamble, cdef, data, w)[2], SECTION_BREAK)
    ensures Split(Layout(meta, preamble, cdef, data, w), SECTION_BREAK) == Sections(meta, preamble, cdef, data, w)
  {
    var secs := Sections(meta, preamble, cdef, data, w);
    Regroup([UTF8_BOM] + PreambleBlock(preamble), w.yamlDump(meta), w.cdefCsv(NoRows(cdef), WITH_HEADER),
      w.cdefCsv(cdef, WITHOUT_HEADER), w.dataCsv(NoDataRows(data), WITH_HEADER), w.dataCsv(data, WITHOUT_HEADER));
    SplitAfter(secs[0], SECTION_BREAK, secs[1] + SECTION_BREAK + secs[2]);
    SplitAfter(secs[1], SECTION_BREAK, secs[2]);
    SplitNothing(secs[2], SECTION_BREAK);
  }

  /** The first section ends cleanly whatever the preamble, when the yaml
      dump, less its final newline, is not empty, holds no break, and neither
      starts nor ends with a newline. */
  lemma FirstSectionClean(preamble: Option<string>, y: string)
    requires |y| >= 2 && y[|y| - 1] == '\n'
    requires Chop(y)[0] != '\n' && Chop(y)[|y| - 2] != '\n' && NoOccurrence(Chop(y), SECTION_BREAK)
    ensures SplitsCleanly([UTF8_BOM] + PreambleBlock(preamble) + Chop(y), SECTION_BREAK)
  {
    var body := Chop(y);
    var head := [UTF8_BOM] + PreambleBlock(preamble);
    assert NoPair([UTF8_BOM]);
    if preamble.None? || preamble.value == "" {
      assert head == [UTF8_BOM];
    } else {
      var lines := SplitLines(preamble.value);
      SplitLinesHaveNoBreaks(preamble.value);
      CommentLinesNoPair(lines);
      var c := CommentLines(lines);
      NoPairConcat([UTF8_BOM], c);
      NoPairNoBreak([UTF8_BOM] + c);
      NoBreakConcat([UTF8_BOM] + c, BLANK_LINE);
      assert head == [UTF8_BOM] + c + BLANK_LINE;
    }
    NoPairNoBreak([UTF8_BOM]);
    NoBreakConcat(head, body);
    assert head + body == [UTF8_BOM] + PreambleBlock(preamble) + Chop(y);
    SplitsCleanlyIff(head + body);
  }
}
