/** The JSON summary report (reportlib/reportFromSummaries.py): one table per summary kind,
    one row per summary file, then the kinds side by side on the sample names. */
module ReportFromSummaries {
  import opened Base
  import opened Text
  import opened Sorting
  import opened Tables
  import opened TsvOutput

  /** A member of a summary's top-level object: a plain value, or an object of plain values
      (the `data` member is one). */
  datatype Field = Scalar(v: Value) | Record(members: seq<(string, Value)>)

  /** What a path that the directory listing returned holds, as far as the report reads it. */
  datatype SummaryFile =
    | NotAFile                                     // os.path.isfile is false
    | Malformed                                    // json.load fails
    | NonObject                                    // the document is not a JSON object
    | Object(members: seq<(string, Field)>)        // the document's members, in file order

  /** One kind of summary: its file-name prefix, the metrics to report, and what
      glob(summary_dir/prefix*) returned. */
  datatype Input = Input(prefix: string, headers: seq<string>, listing: seq<File<SummaryFile>>)

  /** `d.get(key)` on an object read by json.load: when a key is repeated, the last value
      counts. */
  function Lookup<V>(members: seq<(string, V)>, key: string): (r: Option<V>)
    ensures r.None? <==> forall i :: 0 <= i < |members| ==> members[i].0 != key
    ensures r.Some? ==> (key, r.value) in members
  {
    if members == [] then None
    else if members[|members| - 1].0 == key then Some(members[|members| - 1].1)
    else
      var init := members[..|members| - 1];
      assert forall i :: 0 <= i < |init| ==> init[i] == members[i];
      Lookup(init, key)
  }

  /** The value of a key is the one its last member holds. */
  lemma {:induction false} LookupLast<V>(before: seq<(string, V)>, key: string, v: V, after: seq<(string, V)>)
    requires forall i :: 0 <= i < |after| ==> after[i].0 != key
    ensures Lookup(before + [(key, v)] + after, key) == Some(v)
    decreases |after|
  {
    if after != [] {
      var members := before + [(key, v)] + after;
      assert members[..|members| - 1] == before + [(key, v)] + after[..|after| - 1];
      LookupLast(before, key, v, after[..|after| - 1]);
    }
  }

  /** `summary.get('data', {})`, and `{}` when the path is not a file: whatever the summary
      holds under `data`, which need not be an object. Only an unreadable document or one that
      is not an object fails here. */
  function SummaryData(f: File<SummaryFile>): (r: Result<Field>)
    ensures r.Err? <==> f.content.Malformed? || f.content.NonObject?
    ensures f.content.Malformed? ==> r == Err(MalformedJson(f.path))
    ensures f.content.NonObject? ==> r == Err(NotAnObject(f.path))
    ensures f.content.NotAFile? ==> r == Ok(Record([]))
    ensures f.content.Object? && Lookup(f.content.members, "data").None? ==> r == Ok(Record([]))
    ensures f.content.Object? && Lookup(f.content.members, "data").Some? ==>
      r == Ok(Lookup(f.content.members, "data").value)
  {
    match f.content
    case NotAFile => Ok(Record([]))
    case Malformed => Err(MalformedJson(f.path))
    case NonObject => Err(NotAnObject(f.path))
    case Object(members) =>
      match Lookup<Field>(members, "data")
      case None => Ok(Record([]))
      case Some(data) => Ok(data)
  }

  /** `get_values(fp, headers)`: a value for exactly the requested headers, taken from the
      summary's `data` object and Missing where it has none. An absent key never fails; an
      unreadable summary does, and a `data` that is not an object fails at its first `.get`,
      so only when some header is requested. */
  function GetValues(f: File<SummaryFile>, headers: seq<string>): (r: Result<map<string, Value>>)
    ensures r.Err? <==> SummaryData(f).Err? || (SummaryData(f).value.Scalar? && headers != [])
    ensures SummaryData(f).Err? ==> r == Err(SummaryData(f).error)
    ensures SummaryData(f).Ok? && SummaryData(f).value.Scalar? && headers != [] ==>
      r == Err(NotAnObject(f.path))
    ensures r.Ok? ==> r.value.Keys == set h | h in headers
    ensures r.Ok? && headers != [] ==> SummaryData(f).value.Record?
    ensures r.Ok? ==> forall h :: h in headers ==>
      r.value[h] == (match Lookup(SummaryData(f).value.members, h) case None => Missing case Some(v) => v)
  {
    match SummaryData(f)
    case Err(e) => Err(e)
    case Ok(Scalar(_)) =>
      if headers == [] then Ok(map[])
      else Err(NotAnObject(f.path))   // .get on a str, number or None
    case Ok(Record(data)) =>
      Ok(map h | h in headers :: match Lookup(data, h) case None => Missing case Some(v) => v)
  }

  /** With no header requested nothing is looked up in `data`: only an unreadable summary
      fails. */
  lemma NoHeadersReadsNothing(f: File<SummaryFile>)
    ensures GetValues(f, []).Ok? <==> !f.content.Malformed? && !f.content.NonObject?
    ensures GetValues(f, []).Ok? ==> GetValues(f, []).value == map[]
  {
  }

  /** A path that is not a file still gives every requested header, all Missing. */
  lemma AbsentFileGivesMissingRow(f: File<SummaryFile>, headers: seq<string>)
    requires f.content.NotAFile?
    ensures GetValues(f, headers).Ok?
    ensures forall h :: h in headers ==> GetValues(f, headers).value[h] == Missing
  {
    assert SummaryData(f) == Ok(Record([]));
  }

  /** `fp` is `head`, the separator, `name`, then either nothing or the separator again; no
      separator occurs in `head` or `name`. */
  ghost predicate SplitsAfter(fp: string, sep: string, k: nat, name: string)
  {
    OccursAt(fp, sep, k) && NoOccurrence(fp[..k], sep) && NoOccurrence(name, sep) &&
    k + |sep| + |name| <= |fp| && fp[k + |sep|..k + |sep| + |name|] == name &&
    (k + |sep| + |name| == |fp| || OccursAt(fp, sep, k + |sep| + |name|))
  }

  /** `get_sample_name(fp, prefix)`, `fp.rsplit(prefix)[1]`: the text after the prefix, up to
      the next prefix if there is one. An empty prefix is a ValueError, a path without the
      prefix an IndexError. */
  function GetSampleName(fp: string, prefix: string): (r: Result<string>)
    ensures prefix == [] ==> r == Err(EmptySeparator)
    ensures prefix != [] ==> (r.Err? <==> NoOccurrence(fp, prefix))
    ensures prefix != [] && r.Err? ==> r.error == NoSampleName(fp)
    ensures r.Ok? ==> exists k: nat :: SplitsAfter(fp, prefix, k, r.value)
  {
    if prefix == [] then Err(EmptySeparator)
    else
      var pieces := RSplit(fp, prefix);
      RSplitSingle(fp, prefix);
      if |pieces| < 2 then Err(NoSampleName(fp))
      else
        var name := pieces[1];
        PiecesSplit(fp, prefix);
        Ok(name)
  }

  /** The first two pieces of `fp.rsplit(sep)` lie around an occurrence of `sep`. */
  lemma PiecesSplit(fp: string, sep: string)
    requires sep != [] && |RSplit(fp, sep)| >= 2
    ensures SplitsAfter(fp, sep, |RSplit(fp, sep)[0]|, RSplit(fp, sep)[1])
  {
    var pieces := RSplit(fp, sep);
    PiecesAround(fp, sep, pieces);
  }

  lemma PiecesAround(fp: string, sep: string, pieces: seq<string>)
    requires |pieces| >= 2 && Join(pieces, sep) == fp
    requires NoOccurrence(pieces[0], sep) && NoOccurrence(pieces[1], sep)
    ensures SplitsAfter(fp, sep, |pieces[0]|, pieces[1])
  {
    JoinFront(pieces, sep);
    if |pieces| > 2 {
      JoinFront(pieces[1..], sep);
      assert pieces[1..][1..] == pieces[2..];
      var tail := sep + Join(pieces[2..], sep);
      assert fp == pieces[0] + sep + pieces[1] + tail;
      SplitAround(fp, sep, pieces[0], pieces[1], tail);
    } else {
      assert pieces[1..] == [pieces[1]];
      assert fp == pieces[0] + sep + pieces[1] + [];
      SplitAround(fp, sep, pieces[0], pieces[1], []);
    }
  }

  lemma SplitAround(fp: string, sep: string, head: string, name: string, tail: string)
    requires fp == head + sep + name + tail
    requires NoOccurrence(head, sep) && NoOccurrence(name, sep)
    requires tail == [] || (|sep| <= |tail| && tail[..|sep|] == sep)
    ensures SplitsAfter(fp, sep, |head|, name)
  {
    var k := |head|;
    assert fp[..k] == head;
    assert fp[k..k + |sep|] == sep;
    assert fp[k + |sep|..k + |sep| + |name|] == name;
    if tail != [] {
      assert fp[k + |sep| + |name|..k + |sep| + |name| + |sep|] == tail[..|sep|];
    }
  }

  /** A path made of a directory part, the prefix and a name, where the prefix occurs only
      right after the directory part, names that sample. */
  lemma SampleNameOfPath(dir: string, prefix: string, name: string)
    requires prefix != []
    requires OccursOnlyAt(dir + prefix + name, prefix, |dir|)
    ensures GetSampleName(dir + prefix + name, prefix) == Ok(name)
  {
    var fp := dir + prefix + name;
    var r := GetSampleName(fp, prefix);
    assert OccursAt(fp, prefix, |dir|) by {
      assert fp[|dir|..|dir| + |prefix|] == prefix;
    }
    var k: nat :| SplitsAfter(fp, prefix, k, r.value);
    assert k == |dir|;
    assert |dir| + |prefix| + |r.value| == |fp|;
    assert r.value == fp[|dir| + |prefix|..|fp|];
    assert fp[|dir| + |prefix|..|fp|] == name;
  }

  /** When the prefix occurs exactly once, the path is what comes before it, the prefix and
      the sample name. */
  lemma SampleNameRebuildsPath(fp: string, prefix: string, k: nat)
    requires prefix != [] && OccursOnlyAt(fp, prefix, k)
    ensures GetSampleName(fp, prefix).Ok?
    ensures fp == fp[..k] + prefix + GetSampleName(fp, prefix).value
  {
    var name := fp[k + |prefix|..];
    assert fp == fp[..k] + prefix + name;
    SampleNameOfPath(fp[..k], prefix, name);
  }

  /** The one-row table `pandas.DataFrame(get_values(fp, headers), index=[sample])`: the
      values are read before the sample name, so a bad summary is reported first. */
  function SummaryRow(f: File<SummaryFile>, prefix: string, headers: seq<string>): (r: Result<Table>)
    ensures r.Ok? <==> GetValues(f, headers).Ok? && GetSampleName(f.path, prefix).Ok?
    ensures GetValues(f, headers).Err? ==> r == Err(GetValues(f, headers).error)
    ensures r.Ok? ==> Shaped(r.value) && Distinct(r.value.columns) && |r.value.rows| == 1
  {
    match GetValues(f, headers)
    case Err(e) => Err(e)
    case Ok(values) =>
      match GetSampleName(f.path, prefix)
      case Err(e) => Err(e)
      case Ok(name) =>
        var columns := Dedup(headers);
        Ok(Table(columns, [Row(name, seq(|columns|, j requires 0 <= j < |columns| => values[columns[j]]))]))
  }

  /** The row is labelled with the sample name and has a cell for exactly the requested
      headers, each holding that header's value. */
  lemma SummaryRowContents(f: File<SummaryFile>, prefix: string, headers: seq<string>)
    requires SummaryRow(f, prefix, headers).Ok?
    ensures var t := SummaryRow(f, prefix, headers).value;
      Labels(t) == [GetSampleName(f.path, prefix).value] &&
      (forall c :: c in t.columns <==> c in headers) &&
      (forall c :: c in headers ==> Get(t, 0, c) == GetValues(f, headers).value[c]) &&
      (forall c :: c !in headers ==> Get(t, 0, c) == Missing)
  {
    var t := SummaryRow(f, prefix, headers).value;
    assert Labels(t) == [t.rows[0].name];
  }

  /** The comprehension `[DataFrame(get_values(fp, headers), index=[sample]) for fp in fps]`. */
  function SummaryRows(fps: seq<File<SummaryFile>>, prefix: string, headers: seq<string>): (r: Result<seq<Table>>)
    ensures r.Ok? ==> |r.value| == |fps| && forall k :: 0 <= k < |fps| ==>
      Shaped(r.value[k]) && Distinct(r.value[k].columns) && |r.value[k].rows| == 1
  {
    Collect(fps, f => SummaryRow(f, prefix, headers))
  }

  /** Once a file fails to give a row, the files after it do not change the outcome. */
  lemma SummaryRowsFailEarly(fps: seq<File<SummaryFile>>, prefix: string, headers: seq<string>, n: nat)
    requires n <= |fps| && SummaryRows(fps[..n], prefix, headers).Err?
    ensures SummaryRows(fps, prefix, headers) == SummaryRows(fps[..n], prefix, headers)
  {
    CollectFailsEarly(fps, f => SummaryRow(f, prefix, headers), n);
  }

  /** `build_table(summary_dir, prefix, headers)`: the listed files sorted by path, one row
      per file, the rows stacked. No file is an error (nothing to concatenate). */
  function BuildTable(input: Input): (r: Result<Table>)
    ensures input.listing == [] ==> r == Err(NothingToConcatenate)
    ensures r.Ok? ==> Shaped(r.value) && Distinct(r.value.columns)
  {
    match SummaryRows(SortByPath(input.listing), input.prefix, input.headers)
    case Err(e) => Err(e)
    case Ok(rows) => Stack(rows)
  }

  /** Sorting keeps the files, so every file gives a row before sorting exactly when it does
      after. */
  lemma SortKeepsFiles(listing: seq<File<SummaryFile>>)
    ensures |SortByPath(listing)| == |listing|
    ensures forall f :: f in SortByPath(listing) <==> f in listing
  {
    var fps := SortByPath(listing);
    assert |fps| == |multiset(fps)| == |multiset(listing)| == |listing|;
    forall f ensures f in fps <==> f in listing {
      assert f in fps <==> f in multiset(fps);
      assert f in listing <==> f in multiset(listing);
    }
  }

  /** Building the table succeeds exactly when there is at least one file and every file
      gives a row. */
  lemma BuildTableSucceeds(input: Input)
    ensures BuildTable(input).Ok? <==>
      (|input.listing| > 0 && forall f :: f in input.listing ==> SummaryRow(f, input.prefix, input.headers).Ok?)
  {
    var fps := SortByPath(input.listing);
    SortKeepsFiles(input.listing);
    var rows := SummaryRows(fps, input.prefix, input.headers);
    if rows.Err? {
      var i :| 0 <= i < |fps| && SummaryRow(fps[i], input.prefix, input.headers).Err?;
      assert fps[i] in input.listing;
    } else {
      assert forall f :: f in fps ==> SummaryRow(f, input.prefix, input.headers).Ok?;
    }
  }

  /** The sample a file's row is labelled with ("" when its path has no sample name). */
  function SampleOf(f: File<SummaryFile>, prefix: string): string
  {
    match GetSampleName(f.path, prefix)
    case Err(_) => ""
    case Ok(sample) => sample
  }

  /** The samples of the files, in order. */
  function SampleNames(fps: seq<File<SummaryFile>>, prefix: string): (names: seq<string>)
    ensures |names| == |fps|
  {
    seq(|fps|, i requires 0 <= i < |fps| => SampleOf(fps[i], prefix))
  }

  /** The value `get_values` reads for a header (Missing when the file cannot be read). */
  function ValueRead(f: File<SummaryFile>, headers: seq<string>, h: string): Value
  {
    match GetValues(f, headers)
    case Err(_) => Missing
    case Ok(values) => if h in values then values[h] else Missing
  }

  /** The rows are the files in path order, each labelled with its sample name; the columns
      are the requested headers; the cell of a file under a header is the value `get_values`
      read for it. */
  lemma BuildTableContents(input: Input)
    requires BuildTable(input).Ok?
    ensures var t := BuildTable(input).value; var fps := SortByPath(input.listing);
      (forall i :: 0 <= i < |fps| ==> SummaryRow(fps[i], input.prefix, input.headers).Ok?) &&
      Labels(t) == SampleNames(fps, input.prefix) &&
      (forall c :: c in t.columns <==> c in input.headers) &&
      (forall i, c :: 0 <= i < |fps| && c in input.headers ==> Get(t, i, c) == ValueRead(fps[i], input.headers, c))
  {
    var fps := SortByPath(input.listing);
    var rows := SummaryRows(fps, input.prefix, input.headers);
    BuildTableCells(fps, input.prefix, input.headers, rows.value, BuildTable(input).value);
  }

  lemma BuildTableCells(fps: seq<File<SummaryFile>>, prefix: string, headers: seq<string>, rows: seq<Table>, t: Table)
    requires SummaryRows(fps, prefix, headers) == Ok(rows)
    requires Stack(rows) == Ok(t)
    ensures forall i :: 0 <= i < |fps| ==> SummaryRow(fps[i], prefix, headers).Ok?
    ensures Labels(t) == SampleNames(fps, prefix)
    ensures forall c :: c in t.columns <==> c in headers
    ensures forall i, c :: 0 <= i < |fps| && c in headers ==> Get(t, i, c) == ValueRead(fps[i], headers, c)
  {
    StackedLabels(fps, prefix, headers, rows, t);
    StackedColumns(fps, prefix, headers, rows, t);
    StackedCells(fps, prefix, headers, rows, t);
  }

  lemma StackedColumns(fps: seq<File<SummaryFile>>, prefix: string, headers: seq<string>, rows: seq<Table>, t: Table)
    requires SummaryRows(fps, prefix, headers) == Ok(rows) && Stack(rows) == Ok(t)
    ensures forall c :: c in t.columns <==> c in headers
  {
    forall c ensures c in t.columns <==> c in headers {
      StackedColumn(fps, prefix, headers, rows, t, c);
    }
  }

  lemma StackedCells(fps: seq<File<SummaryFile>>, prefix: string, headers: seq<string>, rows: seq<Table>, t: Table)
    requires SummaryRows(fps, prefix, headers) == Ok(rows) && Stack(rows) == Ok(t)
    ensures |t.rows| == |fps|
    ensures forall i, c :: 0 <= i < |fps| && c in headers ==> Get(t, i, c) == ValueRead(fps[i], headers, c)
  {
    StackedLabels(fps, prefix, headers, rows, t);
    forall i, c | 0 <= i < |fps| && c in headers
      ensures Get(t, i, c) == ValueRead(fps[i], headers, c)
    {
      StackedCell(fps, prefix, headers, rows, t, i, c);
    }
  }

  lemma StackedColumn(fps: seq<File<SummaryFile>>, prefix: string, headers: seq<string>, rows: seq<Table>, t: Table, c: string)
    requires SummaryRows(fps, prefix, headers) == Ok(rows) && Stack(rows) == Ok(t)
    ensures c in t.columns <==> c in headers
  {
    AllColumnsMembers(rows, c);
    if c in headers {
      RowOfFile(fps, prefix, headers, rows, 0);
    }
    forall k | 0 <= k < |rows| ensures c in rows[k].columns <==> c in headers {
      RowOfFile(fps, prefix, headers, rows, k);
    }
  }

  /** Row k of the frames is file k's. */
  lemma RowOfFile(fps: seq<File<SummaryFile>>, prefix: string, headers: seq<string>, rows: seq<Table>, k: nat)
    requires SummaryRows(fps, prefix, headers) == Ok(rows) && k < |fps|
    ensures SummaryRow(fps[k], prefix, headers) == Ok(rows[k])
    ensures Labels(rows[k]) == [SampleOf(fps[k], prefix)]
    ensures forall c :: c in rows[k].columns <==> c in headers
    ensures forall c :: c in headers ==> Get(rows[k], 0, c) == ValueRead(fps[k], headers, c)
  {
    SummaryRowContents(fps[k], prefix, headers);
  }

  /** The cell of row k of the frames under a requested header is file k's value. */
  lemma RowCellOfFile(fps: seq<File<SummaryFile>>, prefix: string, headers: seq<string>, rows: seq<Table>, k: nat, c: string)
    requires SummaryRows(fps, prefix, headers) == Ok(rows) && k < |fps| && c in headers
    ensures Shaped(rows[k]) && |rows[k].rows| == 1
    ensures Get(rows[k], 0, c) == ValueRead(fps[k], headers, c)
  {
    SummaryRowContents(fps[k], prefix, headers);
  }

  lemma StackedLabels(fps: seq<File<SummaryFile>>, prefix: string, headers: seq<string>, rows: seq<Table>, t: Table)
    requires SummaryRows(fps, prefix, headers) == Ok(rows) && Stack(rows) == Ok(t)
    ensures forall i :: 0 <= i < |fps| ==> SummaryRow(fps[i], prefix, headers).Ok?
    ensures Labels(t) == SampleNames(fps, prefix)
  {
    forall k | 0 <= k < |fps| ensures rows[k].rows[0].name == SampleOf(fps[k], prefix) {
      RowOfFile(fps, prefix, headers, rows, k);
      assert Labels(rows[k])[0] == rows[k].rows[0].name;
    }
    OneRowEach(rows);
  }

  lemma StackedCell(fps: seq<File<SummaryFile>>, prefix: string, headers: seq<string>, rows: seq<Table>, t: Table, i: nat, c: string)
    requires SummaryRows(fps, prefix, headers) == Ok(rows) && Stack(rows) == Ok(t) && i < |fps| && c in headers
    ensures i < |t.rows| && Get(t, i, c) == ValueRead(fps[i], headers, c)
  {
    RowCellOfFile(fps, prefix, headers, rows, i, c);
    StackedSingleCell(rows, t, i, c);
  }

  /** Every kind's table, in input order, or the first kind's error. */
  function BuildTables(inputs: seq<Input>): (r: Result<seq<Table>>)
    ensures r.Ok? ==> |r.value| == |inputs| && AllShaped(r.value)
  {
    Collect(inputs, BuildTable)
  }

  /** The merged report before it is written: the kinds' tables side by side. */
  function SummaryTable(inputs: seq<Input>): (r: Result<Table>)
    ensures inputs == [] ==> r == Err(NothingToConcatenate)
    ensures r.Ok? ==> Shaped(r.value) && BuildTables(inputs).Ok?
  {
    match BuildTables(inputs)
    case Err(e) => Err(e)
    case Ok(ts) => SideBySide(ts)
  }

  /** The merged report's columns are every kind's columns in input order; its rows are the
      samples of any kind, each once; a sample that a kind lacks has Missing cells under that
      kind's columns. */
  lemma SummaryTableContents(inputs: seq<Input>)
    requires SummaryTable(inputs).Ok?
    ensures var t := SummaryTable(inputs).value; var ts := BuildTables(inputs).value;
      t.columns == AllColumns(ts) &&
      Distinct(Labels(t)) &&
      (forall l :: l in Labels(t) <==> l in AllLabels(ts)) &&
      (forall i, k, j :: 0 <= i < |t.rows| && 0 <= k < |ts| && 0 <= j < |ts[k].columns| ==>
        t.rows[i].cells[ColumnOffset(ts, k) + j] == CellFor(ts[k], t.rows[i].name, j))
  {
  }

  /** `concat_summaries(inputs, out_fp)`: the merged report as written, with `Samples` over
      the sample names and an empty field for every missing value. */
  function ConcatSummaries(inputs: seq<Input>): (r: Result<string>)
    ensures r.Ok? <==> SummaryTable(inputs).Ok?
    ensures r.Err? ==> r.error == SummaryTable(inputs).error
  {
    match SummaryTable(inputs)
    case Err(e) => Err(e)
    case Ok(t) => Ok(Render(t, "Samples", ""))
  }

  /** The written report starts with `Samples`, and reading it back gives the merged table's
      header and rows with an empty field for every missing value. */
  lemma ConcatSummariesWrites(inputs: seq<Input>)
    requires ConcatSummaries(inputs).Ok?
    ensures "Samples" <= ConcatSummaries(inputs).value
    ensures Plain(Records(SummaryTable(inputs).value, "Samples", "")) ==>
      Parse(ConcatSummaries(inputs).value) == Records(SummaryTable(inputs).value, "Samples", "")
  {
    WrittenReport(SummaryTable(inputs).value);
  }

  lemma WrittenReport(t: Table)
    requires Shaped(t)
    ensures "Samples" <= Render(t, "Samples", "")
    ensures Plain(Records(t, "Samples", "")) ==> Parse(Render(t, "Samples", "")) == Records(t, "Samples", "")
  {
    assert !NeedsQuoting("Samples") by {
      assert "Samples" == ['S', 'a', 'm', 'p', 'l', 'e', 's'];
    }
    RenderStartsWith(t, "Samples", "");
    if Plain(Records(t, "Samples", "")) {
      RenderRoundTrip(t, "Samples", "");
    }
  }
}
