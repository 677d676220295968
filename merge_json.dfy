/** The `MergeJson` class of reportlib/utils.py. Its helpers `_get_values`, `_get_sample_name`
    and `_parse_results` are the same code as the functions of reportFromSummaries.py, so the
    model shares ReportFromSummaries' definitions; `_build_table` and `run` are written as the
    step-by-step list building the class performs, and each is proved to give exactly what its
    functional twin gives. */
module MergeJson {
  import opened Base
  import opened Tables
  import opened TsvOutput
  import Sorting
  import RFS = ReportFromSummaries

  /** `_build_table(summary_dir, summary_prefix, headers)`: the listed files sorted by path,
      a one-row table per file, the rows stacked. Agrees with `build_table`. */
  method BuildTable(input: RFS.Input) returns (r: Result<Table>)
    ensures r == RFS.BuildTable(input)
  {
    var fps := Sorting.SortByPath(input.listing);
    var summaryList: seq<Table> := [];
    var i := 0;
    while i < |fps|
      invariant 0 <= i <= |fps|
      invariant RFS.SummaryRows(fps[..i], input.prefix, input.headers) == Ok(summaryList)
    {
      var row := RFS.SummaryRow(fps[i], input.prefix, input.headers);
      if row.Err? {
        RowStops(fps, input.prefix, input.headers, i, summaryList);
        return Err(row.error);
      }
      CollectExtends(fps, f => RFS.SummaryRow(f, input.prefix, input.headers), i, summaryList);
      summaryList := summaryList + [row.value];
      i := i + 1;
    }
    assert fps[..i] == fps;
    r := Stack(summaryList);
  }

  /** `run()`: every kind's table in input order, side by side, written to `out_fp` with
      `Samples` over the sample names. Agrees with `concat_summaries`. */
  method Run(inputs: seq<RFS.Input>, outFp: string) returns (r: Result<File<string>>)
    ensures r.Ok? <==> RFS.ConcatSummaries(inputs).Ok?
    ensures r.Ok? ==> r.value == File(outFp, RFS.ConcatSummaries(inputs).value)
    ensures r.Err? ==> r.error == RFS.ConcatSummaries(inputs).error
  {
    var reportList: seq<Table> := [];
    var i := 0;
    while i < |inputs|
      invariant 0 <= i <= |inputs|
      invariant RFS.BuildTables(inputs[..i]) == Ok(reportList)
    {
      var t := BuildTable(inputs[i]);
      if t.Err? {
        TableStops(inputs, i, reportList);
        return Err(t.error);
      }
      CollectExtends(inputs, RFS.BuildTable, i, reportList);
      reportList := reportList + [t.value];
      i := i + 1;
    }
    assert inputs[..i] == inputs;
    var reports := SideBySide(reportList);
    if reports.Err? {
      return Err(reports.error);
    }
    r := Ok(File(outFp, Render(reports.value, "Samples", "")));
  }

  /** A file that gives no row after the ones before it gave theirs is the outcome. */
  lemma RowStops(fps: seq<File<RFS.SummaryFile>>, prefix: string, headers: seq<string>, i: nat, rows: seq<Table>)
    requires i < |fps| && RFS.SummaryRows(fps[..i], prefix, headers) == Ok(rows)
    requires RFS.SummaryRow(fps[i], prefix, headers).Err?
    ensures RFS.SummaryRows(fps, prefix, headers) == Err(RFS.SummaryRow(fps[i], prefix, headers).error)
  {
    assert fps[..i + 1][..i] == fps[..i];
    assert RFS.SummaryRows(fps[..i + 1], prefix, headers) == Err(RFS.SummaryRow(fps[i], prefix, headers).error);
    RFS.SummaryRowsFailEarly(fps, prefix, headers, i + 1);
  }

  /** A kind whose table fails after the ones before it were built is the outcome. */
  lemma TableStops(inputs: seq<RFS.Input>, i: nat, tables: seq<Table>)
    requires i < |inputs| && RFS.BuildTables(inputs[..i]) == Ok(tables) && RFS.BuildTable(inputs[i]).Err?
    ensures RFS.BuildTables(inputs) == Err(RFS.BuildTable(inputs[i]).error)
  {
    assert inputs[..i + 1][..i] == inputs[..i];
    assert RFS.BuildTables(inputs[..i + 1]) == Err(RFS.BuildTable(inputs[i]).error);
    CollectFailsEarly(inputs, RFS.BuildTable, i + 1);
  }
}
