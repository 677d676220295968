/** reportlib/fastqcReport.py: the per-sample JSON summaries whose names start with a prefix,
    one row per file, the columns in the numeric order of their leading number. */
module FastqcReport {
  import opened Base
  import opened Text
  import opened Sorting
  import opened Tables
  import opened TsvOutput
  import RFS = ReportFromSummaries

  // ---------------------------------------------------------------------
  // One row per summary file

  /** `json.load(f_in).get('data', {})`, with the file opened unconditionally: a path that
      is not a file cannot be opened. A `data` member that is null gives a frame with no
      columns, like `{}`; one that is a string or a number cannot build a frame. */
  function SummaryData(f: File<RFS.SummaryFile>): (r: Result<seq<(string, Value)>>)
    ensures f.content.NotAFile? ==> r == Err(Unreadable(f.path))
    ensures f.content.Malformed? ==> r == Err(MalformedJson(f.path))
    ensures f.content.NonObject? ==> r == Err(NotAnObject(f.path))
    ensures f.content.Object? && RFS.Lookup(f.content.members, "data").None? ==> r == Ok([])
  {
    match f.content
    case NotAFile => Err(Unreadable(f.path))
    case Malformed => Err(MalformedJson(f.path))
    case NonObject => Err(NotAnObject(f.path))
    case Object(members) =>
      match RFS.Lookup(members, "data")
      case None => Ok([])
      case Some(field) =>
        if field.Record? then Ok(field.members)
        else if field.v == Missing then Ok([])
        else Err(NotAnObject(f.path))
  }

  function Keys(data: seq<(string, Value)>): (ks: seq<string>)
    ensures |ks| == |data|
  {
    seq(|data|, i requires 0 <= i < |data| => data[i].0)
  }

  /** The value a `data` object gives a key (its last member with that key), Missing when
      it has none. */
  function ValueIn(data: seq<(string, Value)>, key: string): Value
  {
    match RFS.Lookup(data, key)
    case None => Missing
    case Some(v) => v
  }

  /** `DataFrame(summary_data, index=[sample])`: one row labelled with the sample, a column
      per key of the object (each once), holding the key's value. */
  function SampleRow(sample: string, data: seq<(string, Value)>): (t: Table)
    ensures Shaped(t) && Distinct(t.columns) && Labels(t) == [sample]
    ensures forall c :: c in t.columns <==> c in Keys(data)
    ensures forall c :: Get(t, 0, c) == ValueIn(data, c)
  {
    var columns := Dedup(Keys(data));
    var t := Table(columns, [Row(sample, seq(|columns|, j requires 0 <= j < |columns| => ValueIn(data, columns[j])))]);
    assert Labels(t) == [sample];
    forall c ensures Get(t, 0, c) == ValueIn(data, c) {
      if c !in columns {
        assert forall i :: 0 <= i < |data| ==> data[i].0 != c by {
          assert forall i :: 0 <= i < |data| ==> Keys(data)[i] == data[i].0;
        }
      }
    }
    t
  }

  /** One loop step: the sample name is cut out of the path before the file is opened, so a
      path without the prefix fails first. */
  function FileRow(f: File<RFS.SummaryFile>, prefix: string): (r: Result<Table>)
    ensures RFS.GetSampleName(f.path, prefix).Err? ==> r == Err(RFS.GetSampleName(f.path, prefix).error)
    ensures r.Ok? <==> RFS.GetSampleName(f.path, prefix).Ok? && SummaryData(f).Ok?
    ensures r.Ok? ==> r.value == SampleRow(RFS.GetSampleName(f.path, prefix).value, SummaryData(f).value)
  {
    match RFS.GetSampleName(f.path, prefix)
    case Err(e) => Err(e)
    case Ok(sample) =>
      match SummaryData(f)
      case Err(e) => Err(e)
      case Ok(data) => Ok(SampleRow(sample, data))
  }

  /** The rows of all files, in listing order, or the first exception. */
  function FileRows(files: seq<File<RFS.SummaryFile>>, prefix: string): (r: Result<seq<Table>>)
    ensures r.Ok? ==> |r.value| == |files|
    ensures r.Ok? ==> forall k :: 0 <= k < |files| ==>
      Shaped(r.value[k]) && Distinct(r.value[k].columns) && |r.value[k].rows| == 1
  {
    Collect(files, f => FileRow(f, prefix))
  }

  lemma FileRowsFailEarly(files: seq<File<RFS.SummaryFile>>, prefix: string, n: nat)
    requires n <= |files| && FileRows(files[..n], prefix).Err?
    ensures FileRows(files, prefix) == FileRows(files[..n], prefix)
  {
    CollectFailsEarly(files, f => FileRow(f, prefix), n);
  }

  lemma FileRowsExtend(files: seq<File<RFS.SummaryFile>>, prefix: string, i: nat, rows: seq<Table>)
    requires i < |files| && FileRows(files[..i], prefix) == Ok(rows) && FileRow(files[i], prefix).Ok?
    ensures FileRows(files[..i + 1], prefix) == Ok(rows + [FileRow(files[i], prefix).value])
  {
    CollectExtends(files, f => FileRow(f, prefix), i, rows);
  }

  // ---------------------------------------------------------------------
  // Numeric column order

  /** `float(k.rsplit('-')[0])`: the number before the first `-` of a column name, as in
      FastQC's base ranges `10-14`; None when float() rejects it. */
  function LeadingNumber(column: string): Option<real>
  {
    ParseDecimal(RSplit(column, "-")[0])
  }

  /** The sort key, total so the sort can be stated; it is used only once every column has a
      leading number. */
  function SortKey(column: string): real
  {
    match LeadingNumber(column)
    case None => 0.0
    case Some(x) => x
  }

  function CheckedKey(column: string): Result<real>
  {
    match LeadingNumber(column)
    case None => Err(NotNumeric(column))
    case Some(x) => Ok(x)
  }

  /** `sorted(cols, key=...)`: the keys are computed in list order, so the first column
      without a leading number raises; otherwise the columns in ascending key order. */
  function SortColumns(columns: seq<string>): (r: Result<seq<string>>)
    ensures r.Ok? <==> forall i :: 0 <= i < |columns| ==> LeadingNumber(columns[i]).Some?
    ensures r.Err? ==> exists i :: (0 <= i < |columns| && r.error == NotNumeric(columns[i]) &&
      LeadingNumber(columns[i]).None? && forall j :: 0 <= j < i ==> LeadingNumber(columns[j]).Some?)
    ensures r.Ok? ==> SortedByKey(r.value, SortKey) && multiset(r.value) == multiset(columns)
  {
    match Collect(columns, CheckedKey)
    case Err(e) => Err(e)
    case Ok(_) => Ok(SortByKey(columns, SortKey))
  }

  /** A column named by a whole number, or by a range starting with one, sorts by that
      number: `9` before `10-14`, unlike a comparison of the text. */
  lemma RangeKey(n: nat, rest: string)
    ensures LeadingNumber(ShowNat(n)) == Some(n as real)
    ensures LeadingNumber(ShowNat(n) + "-" + rest) == Some(n as real)
  {
    var digits := ShowNat(n);
    assert '-' !in digits by {
      assert forall i :: 0 <= i < |digits| ==> IsDigit(digits[i]);
    }
    RSplitHeadBeforeFirst(digits, '-', "");
    assert digits + ['-'] + "" == digits + "-";
    assert RSplit(digits, "-")[0] == digits by {
      RSplitSingle(digits, "-");
      RSplitHead(digits, "-");
      OccursNotIn(digits, '-');
    }
    RSplitHeadBeforeFirst(digits, '-', rest);
    assert digits + ['-'] + rest == digits + "-" + rest;
    DecimalOfShowNat(n);
  }

  lemma OccursNotIn(s: string, c: char)
    requires c !in s
    ensures NoOccurrence(s, [c])
  {
    forall j: nat ensures !OccursAt(s, [c], j) {
      OccursAtChar(s, c, j);
    }
  }

  /** Columns with equal keys keep the order they had. */
  lemma SortColumnsIsStable(columns: seq<string>, x: real)
    requires SortColumns(columns).Ok?
    ensures WithKey(SortColumns(columns).value, SortKey, x) == WithKey(columns, SortKey, x)
  {
    SortByKeyIsStable(columns, SortKey, x);
  }

  // ---------------------------------------------------------------------
  // The report

  /** `concat(summaries)` with its columns in numeric order: one row per file, in listing
      order. No file, a file that fails, or a column without a leading number fails it. */
  function ReportTable(files: seq<File<RFS.SummaryFile>>, prefix: string): (r: Result<Table>)
    ensures files == [] ==> r == Err(NothingToConcatenate)
    ensures FileRows(files, prefix).Err? ==> r == Err(FileRows(files, prefix).error)
    ensures r.Ok? ==> Shaped(r.value) && FileRows(files, prefix).Ok?
  {
    match FileRows(files, prefix)
    case Err(e) => Err(e)
    case Ok(rows) =>
      match Stack(rows)
      case Err(e) => Err(e)
      case Ok(all) =>
        match SortColumns(all.columns)
        case Err(e) => Err(e)
        case Ok(sorted) =>
          assert forall c :: c in sorted ==> c in all.columns by {
            assert forall c :: c in sorted ==> c in multiset(sorted);
          }
          Ok(Select(all, sorted))
  }

  /** `makeReport(summary_dir, output_fp, prefix)`: the table written tab-separated, with
      an empty index label (the frames' index has no name) and missing values empty. */
  function Report(files: seq<File<RFS.SummaryFile>>, prefix: string, outputFp: string): (r: Result<File<string>>)
    ensures r.Ok? <==> ReportTable(files, prefix).Ok?
    ensures r.Err? ==> r.error == ReportTable(files, prefix).error
    ensures r.Ok? ==> r.value.path == outputFp
  {
    match ReportTable(files, prefix)
    case Err(e) => Err(e)
    case Ok(t) => Ok(File(outputFp, Render(t, "", "")))
  }

  // ---------------------------------------------------------------------
  // What the report holds

  /** The `data` object a file holds (empty when it cannot be read). */
  function DataOf(f: File<RFS.SummaryFile>): seq<(string, Value)>
  {
    match SummaryData(f)
    case Err(_) => []
    case Ok(data) => data
  }

  /** Row k of the frames is file k's sample with file k's data. */
  lemma FileRowsContents(files: seq<File<RFS.SummaryFile>>, prefix: string, rows: seq<Table>, k: nat)
    requires FileRows(files, prefix) == Ok(rows) && k < |files|
    ensures Labels(rows[k]) == [RFS.SampleOf(files[k], prefix)]
    ensures forall c :: c in rows[k].columns <==> c in Keys(DataOf(files[k]))
    ensures forall c :: Get(rows[k], 0, c) == ValueIn(DataOf(files[k]), c)
  {
    assert FileRow(files[k], prefix).Ok?;
  }

  /** The report succeeds exactly when there is a file, every file gives a row, and every key
      of every file's data has a leading number. */
  lemma ReportTableSucceeds(files: seq<File<RFS.SummaryFile>>, prefix: string)
    ensures ReportTable(files, prefix).Ok? <==>
      (|files| > 0 && (forall i :: 0 <= i < |files| ==> FileRow(files[i], prefix).Ok?) &&
       forall i, c :: 0 <= i < |files| && c in Keys(DataOf(files[i])) ==> LeadingNumber(c).Some?)
  {
    if FileRows(files, prefix).Ok? && |files| > 0 {
      NumberedColumns(files, prefix);
    }
  }

  lemma NumberedColumns(files: seq<File<RFS.SummaryFile>>, prefix: string)
    requires FileRows(files, prefix).Ok? && |files| > 0
    ensures ReportTable(files, prefix).Ok? <==>
      forall i, c :: 0 <= i < |files| && c in Keys(DataOf(files[i])) ==> LeadingNumber(c).Some?
  {
    var rows := FileRows(files, prefix).value;
    var all := Stack(rows).value;
    StackedColumns(files, prefix, rows, all);
    assert ReportTable(files, prefix).Ok? <==> SortColumns(all.columns).Ok?;
    assert (forall j :: 0 <= j < |all.columns| ==> LeadingNumber(all.columns[j]).Some?) <==>
      (forall c :: c in all.columns ==> LeadingNumber(c).Some?);
  }

  /** The stacked frame's columns are the keys of all files' data. */
  lemma StackedColumns(files: seq<File<RFS.SummaryFile>>, prefix: string, rows: seq<Table>, all: Table)
    requires FileRows(files, prefix) == Ok(rows) && Stack(rows) == Ok(all)
    ensures forall c :: c in all.columns <==> exists i :: 0 <= i < |files| && c in Keys(DataOf(files[i]))
  {
    forall c ensures c in all.columns <==> exists i :: 0 <= i < |files| && c in Keys(DataOf(files[i])) {
      AllColumnsMembers(rows, c);
      forall k | 0 <= k < |files| ensures c in rows[k].columns <==> c in Keys(DataOf(files[k])) {
        FileRowsContents(files, prefix, rows, k);
      }
    }
  }

  /** A listed path that is not a file fails the report: unlike the merged summaries, no
      row of missing values stands in for it. */
  lemma UnreadableFileFails(files: seq<File<RFS.SummaryFile>>, prefix: string, i: nat)
    requires i < |files| && files[i].content.NotAFile?
    ensures ReportTable(files, prefix).Err?
  {
    ReportTableSucceeds(files, prefix);
    assert FileRow(files[i], prefix).Err?;
  }

  /** The rows are the files in listing order, labelled with their samples; the columns are
      every key of every file's data, each once, in ascending order of leading number; a
      file's cell under a column is its data's value for that key, missing when it has none. */
  lemma ReportTableContents(files: seq<File<RFS.SummaryFile>>, prefix: string, t: Table)
    requires ReportTable(files, prefix) == Ok(t)
    ensures Labels(t) == RFS.SampleNames(files, prefix)
    ensures forall c :: c in t.columns <==> exists i :: 0 <= i < |files| && c in Keys(DataOf(files[i]))
    ensures Distinct(t.columns) && SortedByKey(t.columns, SortKey)
    ensures forall c :: c in t.columns ==> LeadingNumber(c).Some?
    ensures forall i, c :: 0 <= i < |files| ==> Get(t, i, c) == ValueIn(DataOf(files[i]), c)
  {
    var rows := FileRows(files, prefix).value;
    var all := Stack(rows).value;
    var sorted := SortColumns(all.columns).value;
    ReportTableParts(files, prefix, t);
    StackedLabels(files, prefix, rows, all);
    SortedColumns(files, prefix, rows, all, sorted);
    forall i, c | 0 <= i < |files|
      ensures Get(t, i, c) == ValueIn(DataOf(files[i]), c)
    {
      StackedCell(files, prefix, rows, all, i, c);
      SelectedCell(all, sorted, t, i, c);
    }
  }

  /** The report is the stacked frame's columns selected in sorted order. */
  lemma ReportTableParts(files: seq<File<RFS.SummaryFile>>, prefix: string, t: Table)
    requires ReportTable(files, prefix) == Ok(t)
    ensures FileRows(files, prefix).Ok? && Stack(FileRows(files, prefix).value).Ok?
    ensures var all := Stack(FileRows(files, prefix).value).value;
      SortColumns(all.columns).Ok? && (forall c :: c in all.columns <==> c in SortColumns(all.columns).value) &&
      t == Select(all, SortColumns(all.columns).value)
  {
    var all := Stack(FileRows(files, prefix).value).value;
    var sorted := SortColumns(all.columns).value;
    assert forall c :: c in sorted <==> c in all.columns by {
      assert forall c :: c in sorted <==> c in multiset(sorted);
      assert forall c :: c in all.columns <==> c in multiset(all.columns);
    }
  }

  /** The sorted columns are the stacked frame's columns, reordered. */
  lemma SortedColumns(files: seq<File<RFS.SummaryFile>>, prefix: string, rows: seq<Table>, all: Table, sorted: seq<string>)
    requires FileRows(files, prefix) == Ok(rows) && Stack(rows) == Ok(all) && SortColumns(all.columns) == Ok(sorted)
    ensures forall c :: c in sorted <==> exists i :: 0 <= i < |files| && c in Keys(DataOf(files[i]))
    ensures Distinct(sorted) && SortedByKey(sorted, SortKey)
    ensures forall c :: c in sorted ==> LeadingNumber(c).Some?
  {
    assert forall c :: c in sorted <==> c in all.columns by {
      assert forall c :: c in sorted <==> c in multiset(sorted);
      assert forall c :: c in all.columns <==> c in multiset(all.columns);
    }
    StackedColumns(files, prefix, rows, all);
    DistinctPermutation(all.columns, sorted);
  }

  lemma SelectedCell(all: Table, sorted: seq<string>, t: Table, i: nat, c: string)
    requires Shaped(all) && i < |all.rows| && (forall c :: c in sorted ==> c in all.columns)
    requires forall c :: c in all.columns ==> c in sorted
    requires t == Select(all, sorted)
    ensures i < |t.rows| && Get(t, i, c) == Get(all, i, c)
  {
    if c in sorted {
      var j := IndexOf(sorted, c);
      assert t.rows[i].cells[j] == Get(all, i, sorted[j]);
    }
  }

  lemma StackedLabels(files: seq<File<RFS.SummaryFile>>, prefix: string, rows: seq<Table>, all: Table)
    requires FileRows(files, prefix) == Ok(rows) && Stack(rows) == Ok(all)
    ensures Labels(all) == RFS.SampleNames(files, prefix)
  {
    forall k | 0 <= k < |files| ensures rows[k].rows[0].name == RFS.SampleOf(files[k], prefix) {
      FileRowsContents(files, prefix, rows, k);
      assert Labels(rows[k])[0] == rows[k].rows[0].name;
    }
    OneRowEach(rows);
  }

  lemma StackedCell(files: seq<File<RFS.SummaryFile>>, prefix: string, rows: seq<Table>, all: Table, i: nat, c: string)
    requires FileRows(files, prefix) == Ok(rows) && Stack(rows) == Ok(all) && i < |files|
    ensures i < |all.rows| && Get(all, i, c) == ValueIn(DataOf(files[i]), c)
  {
    FileRowsContents(files, prefix, rows, i);
    StackedSingleCell(rows, all, i, c);
  }

  /** The written report starts with the empty index label, and reading it back gives the
      table's header and rows with an empty field for every missing value. */
  lemma ReportWrites(files: seq<File<RFS.SummaryFile>>, prefix: string, outputFp: string, t: Table)
    requires ReportTable(files, prefix) == Ok(t)
    ensures Report(files, prefix, outputFp) == Ok(File(outputFp, Render(t, "", "")))
    ensures Records(t, "", "")[0] == [""] + t.columns
    ensures Plain(Records(t, "", "")) ==> Parse(Report(files, prefix, outputFp).value.content) == Records(t, "", "")
  {
    if Plain(Records(t, "", "")) {
      RenderRoundTrip(t, "", "");
    }
  }

  // ---------------------------------------------------------------------
  // makeReport

  /** `makeReport(summary_dir, output_fp, prefix)` over the files the glob listed, in that
      order: a frame per file, stopping at the first exception, then the concatenation, the
      numeric column order and the written text. */
  method MakeReport(files: seq<File<RFS.SummaryFile>>, prefix: string, outputFp: string)
      returns (r: Result<File<string>>)
    ensures r == Report(files, prefix, outputFp)
  {
    var summaries: seq<Table> := [];
    var i := 0;
    while i < |files|
      invariant 0 <= i <= |files|
      invariant FileRows(files[..i], prefix) == Ok(summaries)
    {
      var file := files[i];
      var sample := RFS.GetSampleName(file.path, prefix);
      if sample.Err? {
        assert FileRow(file, prefix) == Err(sample.error);
        assert FileRows(files[..i + 1], prefix) == Err(sample.error) by {
          assert files[..i + 1][..i] == files[..i];
        }
        FileRowsFailEarly(files, prefix, i + 1);
        return Err(sample.error);
      }
      var data := SummaryData(file);
      if data.Err? {
        assert FileRow(file, prefix) == Err(data.error);
        assert FileRows(files[..i + 1], prefix) == Err(data.error) by {
          assert files[..i + 1][..i] == files[..i];
        }
        FileRowsFailEarly(files, prefix, i + 1);
        return Err(data.error);
      }
      FileRowsExtend(files, prefix, i, summaries);
      summaries := summaries + [SampleRow(sample.value, data.value)];
      i := i + 1;
    }
    assert files[..i] == files;
    var all := Stack(summaries);
    if all.Err? {
      return Err(all.error);
    }
    var cols := all.value.columns;
    var sorted := SortColumns(cols);
    if sorted.Err? {
      return Err(sorted.error);
    }
    assert forall c :: c in sorted.value ==> c in cols by {
      assert forall c :: c in sorted.value ==> c in multiset(sorted.value);
    }
    var sortedTable := Select(all.value, sorted.value);
    r := Ok(File(outputFp, Render(sortedTable, "", "")));
  }
}
