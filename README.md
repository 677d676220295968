# reportGeneration report merging, modelled in Dafny

This project models the extraction-and-merge engine of the `reportlib` package. The
package gathers per-sample quality-control and annotation files into tab-separated report
tables. Three kinds of input are merged:

- JSON summaries: an object whose `data` member maps metric names to values. They are
  merged by `concat_summaries` / `build_table` (reportlib/reportFromSummaries.py), by the
  `MergeJson` class (reportlib/utils.py, the same code as a class) and by `makeReport`
  (reportlib/fastqcReport.py).
- Two-column results files (term, value), merged by `MergeTsv` into one column per sample.
- FastQC output folders, merged by `MergeFastqc`. Each folder gives its `summary.txt`
  verdicts and the per-base mean quality from `fastqc_data.txt`.

The model is organised as follows:

- `Base`: values, errors, files and `Collect` (a list comprehension that stops at the
  first exception).
- `Text`: `str.rsplit`, `str.split(...)[0]`, `float()` on plain decimals and `str(n)`.
- `Paths`: `os.path.basename`, `dirname` and `join`.
- `Sorting`: `sorted` by path and the stable `sorted(..., key=...)`.
- `Tables`: pandas frames as labelled tables. It has `pandas.concat` on rows (`Stack`) and
  on columns (`SideBySide`), column selection and `transpose`.
- `TsvOutput`: `DataFrame.to_csv(sep='\t')` and a reader for the written text.
- One module per source unit: `ReportFromSummaries`, `MergeJson`, `MergeTsv`, `MergeFastqc`
  and `FastqcReport`.

File I/O, `glob` and `os.path.isfile` / `getsize` become inputs:

- A directory listing is a sequence of `File(path, content)` values, in the order `glob`
  returned them.
- The content is what the code would read from that path: a parsed JSON object, a results
  file's lines and size, or a FastQC folder's two texts.
- Each report that is written is returned as `File(outputPath, text)`.

An exception is an `Err` value naming its cause.

The pure parts are functions and lemmas. The parts of the source that are loops building
lists become methods with loop invariants, proved equal to the functions that specify them:

- `MergeJson.BuildTable` and `MergeJson.Run`;
- `MergeTsv.Run`;
- `MergeFastqc.Run`;
- `FastqcReport.MakeReport`.

`MergeJson`'s helpers `_get_values`, `_get_sample_name` and `_parse_results`
(reportlib/utils.py:29-45) are the same code as `get_values`, `get_sample_name` and the row
built in `build_table`. They are modelled once, by `ReportFromSummaries.GetValues`,
`GetSampleName` and `SummaryRow`.

The utils.py classes only store constructor arguments and never update them. Their fields
are therefore parameters (`MergeFastqc.Config`), not class state.

The JSON reports (`concat_summaries`, `makeReport`) and the FastQC quality report have one
row per sample. The FastQC verdict report does not: the `.transpose()` after its concat is
commented out (reportlib/utils.py:95), and the model follows the code. Like the `MergeTsv`
report (one row per term), the verdict report has one row per check and one column per
sample.

## Model

| member | source | states |
|---|---|---|
| ReportFromSummaries.Lookup | reportlib/reportFromSummaries.py:27 | `dict.get` on a loaded object: None exactly when no member has the key, otherwise a value some member with that key holds |
| ReportFromSummaries.LookupLast | reportlib/reportFromSummaries.py:26-27 | when `json.load` sees a key twice, the last member's value is the one read |
| ReportFromSummaries.SummaryData | reportlib/reportFromSummaries.py:24-30 | `summary.get('data', {})` fails exactly for malformed JSON or a summary that is not an object; otherwise it is whatever `data` holds (possibly a scalar or null), `{}` when the member is absent or the path is not a file |
| ReportFromSummaries.GetValues | reportlib/reportFromSummaries.py:22-31 | the result has exactly the requested headers as keys; each holds the `data` value, or Missing (None) when `data` lacks it; it fails exactly when the summary cannot be read, or when `data` is not an object and at least one header is requested |
| ReportFromSummaries.NoHeadersReadsNothing | reportlib/reportFromSummaries.py:31 | with no header requested, `get_values` gives `{}` for every readable summary, whatever its `data` holds |
| ReportFromSummaries.AbsentFileGivesMissingRow | reportlib/reportFromSummaries.py:29-31 | a listed path that is not a file still yields every header, all Missing |
| ReportFromSummaries.GetSampleName | reportlib/reportFromSummaries.py:18-20 | an empty prefix is a ValueError; a path without the prefix is an IndexError; otherwise the name follows an occurrence of the prefix, contains none, and is followed by the end of the path or by the prefix again |
| ReportFromSummaries.SampleNameOfPath | reportlib/reportFromSummaries.py:18-20 | a path `dir + prefix + name` in which the prefix occurs only after `dir` names sample `name` |
| ReportFromSummaries.SampleNameRebuildsPath | reportlib/reportFromSummaries.py:18-20 | with exactly one occurrence of the prefix, the path is what precedes it, the prefix, then the sample name |
| ReportFromSummaries.SummaryRow | reportlib/reportFromSummaries.py:16 | one file's one-row frame exists exactly when its values and its sample name do; a bad summary is reported before a bad name |
| ReportFromSummaries.SummaryRowContents | reportlib/reportFromSummaries.py:16 | the row is labelled by the sample name, has a column for exactly the requested headers, and holds each header's value |
| ReportFromSummaries.SummaryRowsFailEarly | reportlib/reportFromSummaries.py:16 | once a file fails, the files after it do not change the outcome |
| ReportFromSummaries.BuildTable | reportlib/reportFromSummaries.py:13-16 | no listed file is an error (nothing to concatenate); a built table has one cell per column and no repeated column |
| ReportFromSummaries.SortKeepsFiles | reportlib/reportFromSummaries.py:15 | sorting the listing keeps exactly its files |
| ReportFromSummaries.BuildTableSucceeds | reportlib/reportFromSummaries.py:13-16 | the table is built exactly when some file is listed and every listed file gives a row |
| ReportFromSummaries.BuildTableContents | reportlib/reportFromSummaries.py:13-16 | the rows are the files in path order, labelled by their sample names; the columns are the requested headers; a file's cell under a header is the value `get_values` read |
| ReportFromSummaries.SummaryTable | reportlib/reportFromSummaries.py:10 | no input kind is an error; a kind that fails makes the merge fail |
| ReportFromSummaries.SummaryTableContents | reportlib/reportFromSummaries.py:10 | the merged columns are every kind's columns in input order; the rows are the samples of any kind, each once; the cell under a kind's column is that kind's cell for the row's sample, or Missing when that kind has no row for the sample |
| ReportFromSummaries.ConcatSummaries | reportlib/reportFromSummaries.py:8-11 | the report is written exactly when the merge succeeds, and fails with the merge's error otherwise |
| ReportFromSummaries.ConcatSummariesWrites | reportlib/reportFromSummaries.py:11 | the written report starts with `Samples`; reading it back gives the merged header and rows, with empty fields for missing values |
| MergeJson.BuildTable | reportlib/utils.py:23-27 | the step-by-step `_build_table` loop returns exactly what `build_table` gives |
| MergeJson.Run | reportlib/utils.py:13-21 | `run()` writes to `out_fp` exactly the text `concat_summaries` writes, and fails exactly when and how that does |
| MergeJson.RowStops | reportlib/utils.py:26 | a file that fails after the earlier files gave rows is the comprehension's outcome |
| MergeJson.TableStops | reportlib/utils.py:17 | a kind that fails after the earlier kinds were built is the comprehension's outcome |
| MergeTsv.SampleName | reportlib/utils.py:73-75 | an empty suffix is a ValueError; otherwise the name starts the basename, holds no suffix, and is the whole basename or is followed by the suffix |
| MergeTsv.BasenameIsNameAndSuffix | reportlib/utils.py:73-75 | when the suffix occurs only at the end of the basename, the basename is the sample name plus the suffix |
| MergeTsv.SampleNameOfJoin | reportlib/utils.py:73-75 | the file `dir/name+suffix` belongs to sample `name` |
| MergeTsv.ParseResults | reportlib/utils.py:69-71 | a file gives its column exactly when the suffix is not empty and pandas can read the file; the column is headed by the sample name and holds the file's lines; an empty suffix fails before the file is read |
| MergeTsv.KeptStep | reportlib/utils.py:58 | one more file is kept exactly when it has more than one byte |
| MergeTsv.KeptFiles | reportlib/utils.py:58 | the files kept are exactly the files of more than one byte |
| MergeTsv.KeptStaysSorted | reportlib/utils.py:55-58 | dropping files keeps the rest in path order |
| MergeTsv.ColumnsFailEarly | reportlib/utils.py:61 | once a file fails to parse, the files after it do not change the outcome |
| MergeTsv.ColumnStops | reportlib/utils.py:61 | a file that fails after the earlier files were parsed is the outcome |
| MergeTsv.MergedTable | reportlib/utils.py:53-64 | no file with results means nothing to concatenate; a merged table has one cell per column |
| MergeTsv.ReadFilesAreKeptInOrder | reportlib/utils.py:55-58 | the files read are exactly the listed files of more than one byte, in path order |
| MergeTsv.MergedSucceeds | reportlib/utils.py:53-64 | merging succeeds exactly when some file is read, the suffix is not empty, and every file read can be parsed and repeats no term |
| MergeTsv.MergedContents | reportlib/utils.py:61-64 | the columns are the read files' sample names in path order; the rows are the terms of any file, each once; a cell is the value on that term's line in that sample's file, or Missing |
| MergeTsv.HeaderOnlyFileGivesEmptyColumn | reportlib/utils.py:64-71 | a file with a header and no lines still gets a column, Missing in every row |
| MergeTsv.WrittenTable | reportlib/utils.py:67 | the output starts with `Term`; every missing value is written `0`; reading the text back gives the header and rows |
| MergeTsv.Run | reportlib/utils.py:53-67 | the two loops (filter by size, parse each file) end in exactly the specified merged table, written to `output_fp`, or in its error |
| MergeFastqc.SampleNameOfFolderFile | reportlib/utils.py:116-118 | a file inside the folder `name_fastqc` belongs to sample `name`, whatever the parent directory |
| MergeFastqc.SameSampleForBothFiles | reportlib/utils.py:89-93 | `summary.txt` and `fastqc_data.txt` of one folder name the same sample |
| MergeFastqc.BuildOutputPathExample | test/test_utils.py:53-56 | output base `fastqc`, sub-directory `before_trim` and type `summary` under `home/output_dir` give `home/output_dir/fastqc_before_trim_summary.tsv`, as the repository's test expects |
| MergeFastqc.OutputPathParts | reportlib/utils.py:120-122 | the report lies in `output_dir` and is named `base_subdir_type.tsv` |
| MergeFastqc.OutputPathsDiffer | reportlib/utils.py:120-122 | for every configuration, reports of different types get different paths, so the summary and quality reports never overwrite each other |
| MergeFastqc.FieldValue | reportlib/utils.py:113 | an empty field is read as a missing value, any other as its text |
| MergeFastqc.SummaryEntries | reportlib/utils.py:113-114 | each verdict line gives its check (second field) as the label and its verdict (first field) as the value |
| MergeFastqc.ParseFastqcSummary | reportlib/utils.py:111-114 | one column, headed by the sample name, with a row per verdict line labelled by its check |
| MergeFastqc.SectionBounds | reportlib/utils.py:104 | the bounds of a found section lie within the report (where they lie is stated by QualitySectionPlacement and QualitySectionFound) |
| MergeFastqc.SearchBounds | reportlib/utils.py:104 | the same first-occurrence search for any marker and module end; the bounds it finds lie within the report |
| MergeFastqc.QualitySection | reportlib/utils.py:104 | a report where the pattern does not match raises (`.group` on None); the text captured is characterised by QualitySectionPlacement and QualitySectionFound |
| MergeFastqc.QualitySectionPlacement | reportlib/utils.py:104 | without the quality marker there is no section; a section found follows the marker's line and is followed by `>>END_MODULE` |
| MergeFastqc.QualitySectionFound | reportlib/utils.py:104 | given the first marker, the end of its line and the next module end, the captured group is exactly the text between them |
| MergeFastqc.MarkerStep | reportlib/utils.py:104 | the search finds the marker right after any text without `>` |
| MergeFastqc.LineStep | reportlib/utils.py:104 | the marker's line ends at the first line break after it |
| MergeFastqc.EndStep | reportlib/utils.py:104 | the section ends at the first `>>END_MODULE` after its start |
| MergeFastqc.QualityEntries | reportlib/utils.py:106 | each table line gives its `#Base` field as the label and its `Mean` field as the value |
| MergeFastqc.ParseQuality | reportlib/utils.py:105-107 | a table read from the section is one column headed by the sample name |
| MergeFastqc.ParseQualityOutcome | reportlib/utils.py:106 | the section is read exactly when its header line names both `#Base` and `Mean` and no line is longer than the header; the rows are the lines' base positions with their means |
| MergeFastqc.ParseFastqcQuality | reportlib/utils.py:101-109 | a report without the quality section raises; otherwise it gives one column headed by the sample name |
| MergeFastqc.FolderTables | reportlib/utils.py:89-93 | both tables of a folder that reads are well formed; which file fails first and what the two tables hold is stated by FolderTablesOutcome |
| MergeFastqc.FolderTablesOutcome | reportlib/utils.py:89-93 | an unopenable `summary.txt` fails before `fastqc_data.txt` is opened; a folder gives its tables exactly when both files open and the quality section is read; the tables are the sample's verdict column and mean-quality column |
| MergeFastqc.SummaryTable | reportlib/utils.py:95 | the first folder that fails decides the error |
| MergeFastqc.QualityTable | reportlib/utils.py:98 | the first folder that fails decides the error |
| MergeFastqc.TablesOfParsed | reportlib/utils.py:95-98 | the summary report is the summaries side by side; the quality report is the qualities side by side, transposed |
| MergeFastqc.SummaryTableMerged | reportlib/utils.py:95 | the summary report is the folders' one-column verdict tables side by side |
| MergeFastqc.SummaryTableContents | reportlib/utils.py:95 | a column per folder in folder order, headed by its sample; a row per check of any folder, each once; each cell is that folder's verdict for that check, or Missing |
| MergeFastqc.QualityTableMerged | reportlib/utils.py:98 | the quality report is the folders' one-column quality tables side by side, transposed |
| MergeFastqc.QualityTableContents | reportlib/utils.py:98 | a row per folder in folder order, labelled by its sample; a column per base position of any folder, each once; each cell is that folder's mean for that position, or Missing |
| MergeFastqc.Reports | reportlib/utils.py:84-99 | no failure exactly when both reports are written |
| MergeFastqc.ReportsWritten | reportlib/utils.py:84-99 | a folder that fails stops the run before anything is written; the summary report is written exactly when its merge succeeds, and then comes first; the quality report follows when its merge succeeds too |
| MergeFastqc.WrittenReports | reportlib/utils.py:96-99 | the summary report starts with `Category` and the quality report with `Samples`; reading either back gives its table |
| MergeFastqc.FolderStops | reportlib/utils.py:89-93 | a folder that fails after the earlier folders were read ends the run with its error and nothing written |
| MergeFastqc.Run | reportlib/utils.py:84-99 | the folder loop and the two writes produce exactly the specified outcome |
| FastqcReport.SummaryData | reportlib/fastqcReport.py:18-19 | opening a path that is not a file fails; malformed JSON fails; a non-object fails; a summary without `data` gives `{}` |
| FastqcReport.SampleRow | reportlib/fastqcReport.py:20 | one row labelled by the sample, with a column per key of the data object (each once) holding that key's value |
| FastqcReport.FileRow | reportlib/fastqcReport.py:16-20 | the sample name is taken before the file is opened, so a path without the prefix fails first; otherwise the row of the file's data |
| FastqcReport.FileRowsFailEarly | reportlib/fastqcReport.py:16-20 | once a file fails, the files after it do not change the outcome |
| FastqcReport.FileRowsExtend | reportlib/fastqcReport.py:16-20 | each loop step appends that file's row |
| FastqcReport.SortColumns | reportlib/fastqcReport.py:27 | the sort fails on the first column without a leading number; otherwise it returns the columns, as a permutation, in ascending numeric key |
| FastqcReport.RangeKey | reportlib/fastqcReport.py:27 | the columns `n` and `n-m` both sort by the number `n`, so `9` comes before `10-14` |
| FastqcReport.SortColumnsIsStable | reportlib/fastqcReport.py:27 | columns with equal keys keep their relative order |
| FastqcReport.ReportTable | reportlib/fastqcReport.py:22-27 | no file means nothing to concatenate; a failing file fails the report |
| FastqcReport.ReportTableSucceeds | reportlib/fastqcReport.py:16-27 | the report succeeds exactly when some file is listed, every file gives a row, and every key of every file's data has a leading number |
| FastqcReport.UnreadableFileFails | reportlib/fastqcReport.py:18 | a listed path that is not a file fails the report |
| FastqcReport.ReportTableContents | reportlib/fastqcReport.py:22-27 | the rows are the files in listing order, labelled by their samples; the columns are every key of every file, each once, in numeric order; a cell is that file's value for that key, or Missing |
| FastqcReport.Report | reportlib/fastqcReport.py:8-30 | the report is written to `output_fp` exactly when the table is built, and fails with the table's error otherwise |
| FastqcReport.ReportWrites | reportlib/fastqcReport.py:30 | the written header is an empty index label followed by the columns; reading the text back gives the table |
| FastqcReport.MakeReport | reportlib/fastqcReport.py:8-30 | the loop over the listed files, the concatenation, the column sort and the write give exactly the specified report |
| Text.RSplit | reportlib/reportFromSummaries.py:20 | `rsplit(sep)` pieces: at least one; joined with `sep` they give the text back; none contains `sep` |
| Text.SplitJoinRoundTrip | reportlib/reportFromSummaries.py:20 | splitting on a character that no part contains undoes joining on it |
| Text.RSplitSingle | reportlib/utils.py:75 | `rsplit` gives one piece exactly when the separator does not occur |
| Text.RSplitHead | reportlib/utils.py:75 | the first piece starts the text; it is the whole text when there is one piece, and is followed by the separator otherwise |
| Text.FirstPiece | reportlib/utils.py:118 | `split(sep)[0]` starts the text, contains no `sep`, and is the whole text or is followed by `sep` |
| Text.FirstPieceOnlyAt | reportlib/utils.py:118 | with `sep` only at position `k`, the first piece is the text before `k` |
| Text.ParseNat | reportlib/fastqcReport.py:27 | a number is read exactly from a non-empty run of digits |
| Text.ParseShowNat | reportlib/fastqcReport.py:27 | reading back the digits of `n` gives `n` |
| Text.DecimalOfDigits | reportlib/fastqcReport.py:27 | `float()` of a run of digits is the number it spells |
| Text.DecimalOfShowNat | reportlib/fastqcReport.py:27 | `float(str(n))` is `n` |
| Text.DecimalWithFraction | reportlib/fastqcReport.py:27 | for all digit runs `a` and `b`, not both empty, `float(a + "." + b)` is the whole part `a` plus the fraction `b`, read exactly |
| Text.ParseDecimal | reportlib/fastqcReport.py:27 | the value read from an unsigned decimal is never negative |
| Text.ParseDecimalAccepts | reportlib/fastqcReport.py:27 | `float()` succeeds exactly on the decimal texts: after an optional `+`, only digits and points, at most one point, at least one digit |
| Text.NotDecimalText | reportlib/fastqcReport.py:27 | a text with a character other than a digit, a point or a leading `+`, or a text without digits, is not a number (the sort then raises) |
| Paths.Basename | reportlib/utils.py:75 | the basename contains no `/`, ends the path, and is the whole path or follows a `/` |
| Paths.Dirname | reportlib/utils.py:118 | the dirname starts the path up to its last `/`, and only slashes are dropped from that |
| Paths.BasenameOfJoin | reportlib/utils.py:55 | joining a name without `/` onto a directory gives a path whose basename is that name |
| Paths.DirnameOfJoin | reportlib/utils.py:118 | joining a name onto a directory not ending in `/` gives a path whose dirname is that directory |
| Paths.JoinAppend | reportlib/utils.py:120-122 | text added after a non-empty name is added after the joined path |
| Sorting.SortByPath | reportlib/reportFromSummaries.py:15 | `sorted(glob(...))` is a permutation of the listing, in ascending string order |
| Sorting.SortByKey | reportlib/fastqcReport.py:27 | `sorted(..., key=...)` is a permutation in ascending key order |
| Sorting.SortByKeyIsStable | reportlib/fastqcReport.py:27 | for every key, the elements with that key keep their input order |
| Tables.Dedup | reportlib/reportFromSummaries.py:31 | the dict comprehension keeps each header once and no other |
| Tables.Stack | reportlib/reportFromSummaries.py:16 | `pandas.concat` of no frames fails; otherwise the rows of all frames in order, on the union of their columns (each once), each cell kept and Missing under a column its frame lacked |
| Tables.SideBySide | reportlib/reportFromSummaries.py:10 | `pandas.concat(axis=1)`: the columns of all frames in order, on the union of their row labels (each once); a cell is its frame's cell for that label or Missing; no frames, or a frame with a repeated label, fails |
| Tables.Column | reportlib/utils.py:71 | a one-column frame headed by the name, labelled by its lines; the cell for a label is the value on that label's line |
| Tables.SideBySideColumns | reportlib/utils.py:64 | one-column frames side by side: a column per frame in order; a row per label of any frame, each once; each cell is that frame's value for the row's label, or Missing |
| Tables.SideBySideColumnsSucceeds | reportlib/utils.py:64 | one-column frames join exactly when there is at least one and none repeats a label |
| Tables.SideBySideColumnsTransposed | reportlib/utils.py:98 | the transposed join has a row per frame labelled by its name, and a column per label of any frame |
| Tables.Select | reportlib/fastqcReport.py:27 | `t[cols]` has exactly the listed columns, in order, with the same rows and cells |
| Tables.Transpose | reportlib/utils.py:98 | rows become columns and columns rows, cell for cell |
| Tables.TransposeTwice | reportlib/utils.py:98 | transposing twice gives the table back |
| TsvOutput.Quote | reportlib/reportFromSummaries.py:11 | minimal csv quoting: a field without tab, quote or line break is written as is; a quoted field reads back as itself |
| TsvOutput.Records | reportlib/reportFromSummaries.py:11 | the header is the index label followed by the columns; each row is its label followed by its cell texts, with `na_rep` for every missing cell |
| TsvOutput.RenderRoundTrip | reportlib/reportFromSummaries.py:11 | reading the written text back gives the header and every row, when no field holds a tab or a line break |
| TsvOutput.RenderStartsWith | reportlib/reportFromSummaries.py:11 | the written text starts with the index label |

## Left out

- File I/O, `glob`, `os.path.isfile` and `os.path.getsize` are inputs. A listing is given in
  the order `glob` returned it. `makeReport` does not sort its listing, so its row order is
  the given order.
- The `print(summary_data)` in `get_values` is not modelled (console output).
- Command-line parsing (`preprocess_report`, `ko_assignment_report`, `main`) is not modelled.
- JSON is read as one level of `data` members holding text, integers or null. Nested
  objects, booleans and floats inside `data` are not modelled.
- FastqcReport.SummaryData: a null `data` is treated like `{}`, and a scalar `data` is a
  NotAnObject error. The exact pandas exception is not modelled.
- Cell values are text, integers or Missing. pandas dtype inference and its float rendering
  (`1.0` for an integer column that gained a NaN) are not modelled. Integers are written in
  plain decimal.
- Text.ParseDecimal: reads an optional `+`, digits and at most one point. Exponents,
  `inf`/`nan`, surrounding whitespace and underscores read as not a number. A leading `-`
  cannot reach it, because the text before the first `-` holds none. Values are exact reals,
  not binary floats.
- pandas orders the union of columns (`Stack`) and of row labels (`SideBySide`) in its own
  way. Tables.Stack and Tables.SideBySide state those orders only as sets without
  repeats.
- Tables.SideBySide: any repeated row label fails the join. pandas accepts frames whose
  indexes are identical even with repeats.
- `read_csv` is modelled on tab-split lines with empty fields as missing values. Quoted
  fields, comment lines, CRLF line ends and pandas' special NA strings (`NA`, `null`, ...)
  are not modelled.
- TsvOutput.RenderRoundTrip: stated only for fields without tabs or line breaks. The reader
  is a plain line and tab splitter, not a full csv parser.
- The regular expression of `_parse_fastqc_quality` is modelled by what it matches, as
  first-occurrence searches. It is not a general regex engine.
