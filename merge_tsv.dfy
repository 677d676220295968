/** The `MergeTsv` class of reportlib/utils.py: one results file per sample, a term and a
    value on each line after a header line. The files that hold results are placed side by
    side, one column per sample on the union of the terms, and written with `Term` over the
    terms and `0` for every value a sample lacks. */
module MergeTsv {
  import opened Base
  import opened Text
  import opened Paths
  import opened Sorting
  import opened Tables
  import opened TsvOutput

  /** A results file as the listing returned it: its size in bytes (`os.path.getsize`) and
      the term and value of each line after the header as pandas reads them, or None when
      pandas cannot read the file. */
  datatype ResultsFile = ResultsFile(size: nat, entries: Option<seq<(string, Value)>>)

  /** `_get_sample_name(fp, input_suffix)`, `basename(fp).rsplit(input_suffix)[0]`: the part
      of the basename before an occurrence of the suffix (all of it when the suffix does not
      occur); the name holds no suffix itself. An empty suffix is a ValueError. */
  function SampleName(fp: string, suffix: string): (r: Result<string>)
    ensures r.Err? <==> suffix == []
    ensures r.Err? ==> r.error == EmptySeparator
    ensures r.Ok? ==> r.value <= Basename(fp) && NoOccurrence(r.value, suffix)
    ensures r.Ok? ==> r.value == Basename(fp) || OccursAt(Basename(fp), suffix, |r.value|)
  {
    if suffix == [] then Err(EmptySeparator)
    else
      RSplitHead(Basename(fp), suffix);
      Ok(RSplit(Basename(fp), suffix)[0])
  }

  /** When the suffix occurs in the basename only at its very end, the basename is the sample
      name followed by the suffix. */
  lemma BasenameIsNameAndSuffix(fp: string, suffix: string)
    requires suffix != [] && |suffix| <= |Basename(fp)|
    requires OccursOnlyAt(Basename(fp), suffix, |Basename(fp)| - |suffix|)
    ensures SampleName(fp, suffix).Ok?
    ensures Basename(fp) == SampleName(fp, suffix).value + suffix
  {
    RSplitHeadBeforeEnd(Basename(fp), suffix);
  }

  /** A file named `name + suffix` in any directory, the suffix occurring only at the end of
      that file name, belongs to sample `name`. */
  lemma SampleNameOfJoin(dir: string, name: string, suffix: string)
    requires suffix != [] && '/' !in name && '/' !in suffix
    requires OccursOnlyAt(name + suffix, suffix, |name|)
    ensures SampleName(PathJoin(dir, name + suffix), suffix) == Ok(name)
  {
    var fp := PathJoin(dir, name + suffix);
    BasenameOfJoin(dir, name + suffix);
    BasenameIsNameAndSuffix(fp, suffix);
    var r := SampleName(fp, suffix).value;
    assert r + suffix == name + suffix;
    assert r == (r + suffix)[..|r|];
  }

  /** `_parse_results(fp)`: the sample's column. The name is worked out before pandas opens
      the file, so an empty suffix fails first, then a file pandas cannot read. */
  function ParseResults(f: File<ResultsFile>, suffix: string): (r: Result<Table>)
    ensures r.Ok? <==> suffix != [] && f.content.entries.Some?
    ensures suffix == [] ==> r == Err(EmptySeparator)
    ensures suffix != [] && f.content.entries.None? ==> r == Err(Unparsable(f.path))
    ensures r.Ok? ==> r.value == Column(SampleName(f.path, suffix).value, f.content.entries.value)
  {
    match SampleName(f.path, suffix)
    case Err(e) => Err(e)
    case Ok(name) =>
      match f.content.entries
      case None => Err(Unparsable(f.path))
      case Some(entries) => Ok(Column(name, entries))
  }

  /** `[fp for fp in fps if os.path.getsize(fp) > 1]`. */
  function Kept(fps: seq<File<ResultsFile>>): (r: seq<File<ResultsFile>>)
    ensures |r| <= |fps|
  {
    if fps == [] then []
    else
      var init := fps[..|fps| - 1];
      var last := fps[|fps| - 1];
      assert fps == init + [last];
      if last.content.size > 1 then Kept(init) + [last] else Kept(init)
  }

  /** One more file is kept exactly when it has more than one byte. */
  lemma KeptStep(fps: seq<File<ResultsFile>>, i: nat)
    requires i < |fps|
    ensures Kept(fps[..i + 1]) == Kept(fps[..i]) + (if fps[i].content.size > 1 then [fps[i]] else [])
  {
    assert fps[..i + 1][..i] == fps[..i];
  }

  /** The files kept are exactly the files of more than one byte. */
  lemma {:induction false} KeptFiles(fps: seq<File<ResultsFile>>)
    ensures forall f :: f in Kept(fps) <==> f in fps && f.content.size > 1
    decreases |fps|
  {
    if fps != [] {
      var init := fps[..|fps| - 1];
      assert fps == init + [fps[|fps| - 1]];
      KeptFiles(init);
    }
  }

  /** Dropping files keeps the rest in path order. */
  lemma {:induction false} KeptStaysSorted(fps: seq<File<ResultsFile>>)
    requires SortedByPath(fps)
    ensures SortedByPath(Kept(fps))
    decreases |fps|
  {
    if fps != [] {
      var init := fps[..|fps| - 1];
      var last := fps[|fps| - 1];
      KeptStaysSorted(init);
      assert fps == init + [last];
      if last.content.size > 1 {
        assert Kept(fps) == Kept(init) + [last];
        KeptFiles(init);
        forall f | f in Kept(init) ensures LexLe(f.path, last.path) {
          var j :| 0 <= j < |init| && init[j] == f;
          assert fps[j] == f;
        }
        AppendSorted(Kept(init), last);
      } else {
        assert Kept(fps) == Kept(init);
      }
    }
  }

  /** A file whose path is no smaller than any path of a sorted list extends it in order. */
  lemma AppendSorted(r: seq<File<ResultsFile>>, last: File<ResultsFile>)
    requires SortedByPath(r)
    requires forall f :: f in r ==> LexLe(f.path, last.path)
    ensures SortedByPath(r + [last])
  {
    var s := r + [last];
    forall i, j | 0 <= i < j < |s| ensures LexLe(s[i].path, s[j].path) {
      assert s[i] == r[i];
      if j < |r| {
        assert s[j] == r[j];
      } else {
        assert r[i] in r;
      }
    }
  }

  /** The comprehension `[self._parse_results(fp) for fp in fps]`. */
  function ParsedColumns(fps: seq<File<ResultsFile>>, suffix: string): (r: Result<seq<Table>>)
    ensures r.Ok? ==> |r.value| == |fps| && AllShaped(r.value)
  {
    Collect(fps, f => ParseResults(f, suffix))
  }

  /** Once a file fails to parse, the files after it do not change the outcome. */
  lemma ColumnsFailEarly(fps: seq<File<ResultsFile>>, suffix: string, n: nat)
    requires n <= |fps| && ParsedColumns(fps[..n], suffix).Err?
    ensures ParsedColumns(fps, suffix) == ParsedColumns(fps[..n], suffix)
  {
    CollectFailsEarly(fps, f => ParseResults(f, suffix), n);
  }

  /** A file that fails to parse after the ones before it were parsed is the outcome. */
  lemma ColumnStops(fps: seq<File<ResultsFile>>, suffix: string, i: nat, kos: seq<Table>)
    requires i < |fps| && ParsedColumns(fps[..i], suffix) == Ok(kos) && ParseResults(fps[i], suffix).Err?
    ensures ParsedColumns(fps, suffix) == Err(ParseResults(fps[i], suffix).error)
  {
    assert fps[..i + 1][..i] == fps[..i];
    assert ParsedColumns(fps[..i + 1], suffix) == Err(ParseResults(fps[i], suffix).error);
    ColumnsFailEarly(fps, suffix, i + 1);
  }

  /** The files `run` reads: the listing in path order, without the files of one byte or
      less. */
  function ReadFiles(listing: seq<File<ResultsFile>>): seq<File<ResultsFile>>
  {
    Kept(SortByPath(listing))
  }

  /** The merged table before it is written: the read files' columns side by side on the
      terms. No file with results leaves nothing to concatenate. */
  function MergedTable(listing: seq<File<ResultsFile>>, suffix: string): (r: Result<Table>)
    ensures ReadFiles(listing) == [] ==> r == Err(NothingToConcatenate)
    ensures r.Ok? ==> Shaped(r.value)
  {
    match ParsedColumns(ReadFiles(listing), suffix)
    case Err(e) => Err(e)
    case Ok(kos) => SideBySide(kos)
  }

  /** The files read are exactly the listed files of more than one byte, in path order. */
  lemma ReadFilesAreKeptInOrder(listing: seq<File<ResultsFile>>)
    ensures forall f :: f in ReadFiles(listing) <==> f in listing && f.content.size > 1
    ensures SortedByPath(ReadFiles(listing))
  {
    var sorted := SortByPath(listing);
    KeptStaysSorted(sorted);
    KeptFiles(sorted);
    forall f ensures f in sorted <==> f in listing {
      assert f in sorted <==> f in multiset(sorted);
    }
  }

  /** Merging succeeds exactly when some file is read, the suffix is not empty, and every
      file read can be parsed and repeats no term (the files read are the listed files of
      more than one byte, by ReadFilesAreKeptInOrder). */
  lemma MergedSucceeds(listing: seq<File<ResultsFile>>, suffix: string)
    ensures MergedTable(listing, suffix).Ok? <==>
      ReadFiles(listing) != [] && suffix != [] &&
      forall f :: f in ReadFiles(listing) ==> f.content.entries.Some? && Distinct(EntryLabels(f.content.entries.value))
  {
    var fps := ReadFiles(listing);
    var cols := ParsedColumns(fps, suffix);
    if cols.Ok? {
      var kos := cols.value;
      assert MergedTable(listing, suffix) == SideBySide(kos);
      forall k | 0 <= k < |fps|
        ensures fps[k].content.entries.Some? && suffix != []
        ensures Labels(kos[k]) == EntryLabels(fps[k].content.entries.value)
      {
        assert ParseResults(fps[k], suffix).Ok?;
      }
    } else {
      var k :| 0 <= k < |fps| && ParseResults(fps[k], suffix).Err?;
      assert fps[k] in fps;
    }
  }

  /** The columns are the read files' sample names, in path order; the rows are the terms of
      any read file, each once; the cell of a term under a sample's column is the value on
      that term's line in the sample's file, and Missing (written `0`) when the file has no
      such line. */
  lemma MergedContents(listing: seq<File<ResultsFile>>, suffix: string, t: Table)
    requires MergedTable(listing, suffix) == Ok(t)
    ensures forall k :: 0 <= k < |ReadFiles(listing)| ==>
      SampleName(ReadFiles(listing)[k].path, suffix) == Ok(Names(ReadFiles(listing), suffix)[k]) &&
      ReadFiles(listing)[k].content.entries == Some(LineLists(ReadFiles(listing))[k])
    ensures t.columns == Names(ReadFiles(listing), suffix)
    ensures Distinct(Labels(t))
    ensures forall l :: l in Labels(t) <==>
      exists k :: 0 <= k < |ReadFiles(listing)| && l in EntryLabels(LineLists(ReadFiles(listing))[k])
    ensures forall i, k :: 0 <= i < |t.rows| && 0 <= k < |ReadFiles(listing)| ==>
      k < |t.rows[i].cells| && t.rows[i].cells[k] == ValueOf(LineLists(ReadFiles(listing))[k], t.rows[i].name)
  {
    var fps := ReadFiles(listing);
    var kos := ParsedColumns(fps, suffix).value;
    assert SideBySide(kos) == Ok(t);
    MergedFromFiles(fps, suffix, kos, t);
  }

  lemma MergedFromFiles(fps: seq<File<ResultsFile>>, suffix: string, kos: seq<Table>, t: Table)
    requires ParsedColumns(fps, suffix) == Ok(kos) && SideBySide(kos) == Ok(t)
    ensures forall k :: 0 <= k < |fps| ==> SampleName(fps[k].path, suffix) == Ok(Names(fps, suffix)[k]) &&
                                           fps[k].content.entries == Some(LineLists(fps)[k])
    ensures t.columns == Names(fps, suffix)
    ensures Distinct(Labels(t))
    ensures forall l :: l in Labels(t) <==> exists k :: 0 <= k < |fps| && l in EntryLabels(LineLists(fps)[k])
    ensures forall i, k :: 0 <= i < |t.rows| && 0 <= k < |fps| ==>
      k < |t.rows[i].cells| && t.rows[i].cells[k] == ValueOf(LineLists(fps)[k], t.rows[i].name)
  {
    ColumnsParsed(fps, suffix, kos);
    ColumnsOfFiles(fps, suffix, kos);
    SideBySideColumns(Names(fps, suffix), LineLists(fps), t);
  }

  /** Every file read gave the column of its sample. */
  lemma ColumnsParsed(fps: seq<File<ResultsFile>>, suffix: string, kos: seq<Table>)
    requires ParsedColumns(fps, suffix) == Ok(kos)
    ensures |kos| == |fps|
    ensures forall k :: 0 <= k < |fps| ==>
      fps[k].content.entries.Some? && SampleName(fps[k].path, suffix).Ok? &&
      kos[k] == Column(SampleName(fps[k].path, suffix).value, fps[k].content.entries.value)
  {
    forall k | 0 <= k < |fps|
      ensures ParseResults(fps[k], suffix) == Ok(kos[k])
    {
    }
  }

  /** The read files' sample names. */
  function Names(fps: seq<File<ResultsFile>>, suffix: string): (names: seq<string>)
    ensures |names| == |fps|
  {
    seq(|fps|, k requires 0 <= k < |fps| => NameOf(fps[k].path, suffix))
  }

  /** The read files' lines. */
  function LineLists(fps: seq<File<ResultsFile>>): (lines: seq<seq<(string, Value)>>)
    ensures |lines| == |fps|
  {
    seq(|fps|, k requires 0 <= k < |fps| => LinesOf(fps[k]))
  }

  lemma ColumnsOfFiles(fps: seq<File<ResultsFile>>, suffix: string, kos: seq<Table>)
    requires ParsedColumns(fps, suffix) == Ok(kos)
    ensures kos == Columns(Names(fps, suffix), LineLists(fps))
  {
    ColumnsParsed(fps, suffix, kos);
  }

  /** The sample name, or nothing when the suffix is empty. */
  function NameOf(fp: string, suffix: string): string
  {
    match SampleName(fp, suffix)
    case Ok(name) => name
    case Err(_) => ""
  }

  /** The lines pandas reads, or none when it cannot read the file. */
  function LinesOf(f: File<ResultsFile>): seq<(string, Value)>
  {
    match f.content.entries
    case Some(entries) => entries
    case None => []
  }

  /** A file that has a header but no lines after it still gets its column, empty throughout. */
  lemma HeaderOnlyFileGivesEmptyColumn(listing: seq<File<ResultsFile>>, suffix: string, k: nat)
    requires MergedTable(listing, suffix).Ok?
    requires k < |ReadFiles(listing)| && ReadFiles(listing)[k].content.entries == Some([])
    ensures k < |MergedTable(listing, suffix).value.columns|
    ensures forall i :: 0 <= i < |MergedTable(listing, suffix).value.rows| ==>
      MergedTable(listing, suffix).value.rows[i].cells[k] == Missing
  {
    MergedContents(listing, suffix, MergedTable(listing, suffix).value);
  }

  /** The written table starts with `Term`, every missing value is written `0`, and reading
      the text back gives the header and rows. */
  lemma WrittenTable(t: Table)
    requires Shaped(t)
    ensures "Term" <= Render(t, "Term", "0")
    ensures forall i, j :: 0 <= i < |t.rows| && 0 <= j < |t.columns| && t.rows[i].cells[j] == Missing ==>
      Records(t, "Term", "0")[i + 1][j + 1] == "0"
    ensures Plain(Records(t, "Term", "0")) ==> Parse(Render(t, "Term", "0")) == Records(t, "Term", "0")
  {
    assert !NeedsQuoting("Term") by {
      assert "Term" == ['T', 'e', 'r', 'm'];
    }
    RenderStartsWith(t, "Term", "0");
    if Plain(Records(t, "Term", "0")) {
      RenderRoundTrip(t, "Term", "0");
    }
  }

  /** `run()`: the listing sorted, the files of one byte or less dropped, each remaining file
      parsed into a column, the columns placed side by side and written to `output_fp` with
      `Term` over the terms and `0` for missing values. */
  method Run(listing: seq<File<ResultsFile>>, suffix: string, outputFp: string) returns (r: Result<File<string>>)
    ensures r.Ok? <==> MergedTable(listing, suffix).Ok?
    ensures r.Ok? ==> r.value == File(outputFp, Render(MergedTable(listing, suffix).value, "Term", "0"))
    ensures r.Err? ==> r.error == MergedTable(listing, suffix).error
  {
    var fps := SortByPath(listing);
    var kept: seq<File<ResultsFile>> := [];
    var i := 0;
    while i < |fps|
      invariant 0 <= i <= |fps|
      invariant kept == Kept(fps[..i])
    {
      KeptStep(fps, i);
      if fps[i].content.size > 1 {
        kept := kept + [fps[i]];
      }
      i := i + 1;
    }
    assert fps[..i] == fps;
    fps := kept;

    var kos: seq<Table> := [];
    i := 0;
    while i < |fps|
      invariant 0 <= i <= |fps|
      invariant ParsedColumns(fps[..i], suffix) == Ok(kos)
    {
      var column := ParseResults(fps[i], suffix);
      if column.Err? {
        ColumnStops(fps, suffix, i, kos);
        return Err(column.error);
      }
      CollectExtends(fps, f => ParseResults(f, suffix), i, kos);
      kos := kos + [column.value];
      i := i + 1;
    }
    assert fps[..i] == fps;
    var merged := SideBySide(kos);
    if merged.Err? {
      return Err(merged.error);
    }
    r := Ok(File(outputFp, Render(merged.value, "Term", "0")));
  }
}
