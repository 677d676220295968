/** The `MergeFastqc` class of reportlib/utils.py: for every FastQC output folder, the
    verdict list of `summary.txt` and the per-base mean quality of `fastqc_data.txt`, merged
    over the samples into a summary report (one row per check, one column per sample) and a
    quality report (one row per sample, one column per base position). */
module MergeFastqc {
  import opened Base
  import opened Text
  import opened Paths
  import opened Sorting
  import opened Tables
  import opened TsvOutput

  /** The two files of a FastQC output folder that the report reads: their text, or None
      when the file cannot be opened. */
  datatype FastqcFolder = FastqcFolder(summary: Option<string>, data: Option<string>)

  /** The constructor's fields that the merge uses; `input_dir` only shapes the folder
      listing, which is passed in. */
  datatype Config = Config(subDir: string, outputDir: string, outputBase: string)

  /** What `run` leaves behind: the report files it wrote, in order, and the exception that
      stopped it, if any. */
  datatype Outcome = Outcome(written: seq<File<string>>, failure: Option<Error>)

  const FolderSuffix: string := "_fastqc"
  const QualityMarker: string := ">>Per base sequence quality"
  const ModuleEnd: string := "\n>>END_MODULE"

  // ---------------------------------------------------------------------
  // Sample names and output paths

  /** `_get_sample_name(input_fp)`, `basename(dirname(input_fp)).split('_fastqc')[0]`: the
      name of the folder holding the file, up to the first `_fastqc`. */
  function SampleName(inputFp: string): string
  {
    FirstPiece(Basename(Dirname(inputFp)), FolderSuffix)
  }

  /** A file in the folder `name_fastqc` of any parent directory belongs to sample `name`,
      when `_fastqc` occurs in the folder name only at its end. */
  lemma SampleNameOfFolderFile(parent: string, name: string, file: string)
    requires '/' !in name && '/' !in file
    requires OccursOnlyAt(name + FolderSuffix, FolderSuffix, |name|)
    ensures SampleName(PathJoin(PathJoin(parent, name + FolderSuffix), file)) == name
  {
    var base := name + FolderSuffix;
    var folder := PathJoin(parent, base);
    assert '/' !in base by {
      assert forall i :: 0 <= i < |base| ==> base[i] == (if i < |name| then name[i] else FolderSuffix[i - |name|]);
    }
    BasenameOfJoin(parent, base);
    assert folder[|folder| - 1] == base[|base| - 1] == 'c';
    DirnameOfJoin(folder, file);
    FirstPieceOnlyAt(base, FolderSuffix, |name|);
    assert base[..|name|] == name;
  }

  /** The two files of one folder name the same sample. */
  lemma SameSampleForBothFiles(folder: string)
    requires folder != [] && folder[|folder| - 1] != '/'
    ensures SampleName(PathJoin(folder, "summary.txt")) == SampleName(PathJoin(folder, "fastqc_data.txt"))
  {
    DirnameOfJoin(folder, "summary.txt");
    DirnameOfJoin(folder, "fastqc_data.txt");
  }

  /** `build_output_path(type)`: `output_base`, `sub_dir` and the type joined by `_`, with
      `.tsv` added, inside `output_dir`. */
  function BuildOutputPath(cfg: Config, kind: string): string
  {
    PathJoin(cfg.outputDir, cfg.outputBase + "_" + cfg.subDir + "_" + kind + ".tsv")
  }

  /** The summary report of a run with sub-directory `before_trim`, output directory
      `home/output_dir` and output base `fastqc`. */
  lemma BuildOutputPathExample()
    ensures BuildOutputPath(Config("before_trim", "home/output_dir", "fastqc"), "summary") ==
            "home/output_dir/fastqc_before_trim_summary.tsv"
  {
    var dir, file := "home/output_dir", "fastqc_before_trim_summary.tsv";
    ExampleFileName();
    assert file[0] == 'f' && dir[|dir| - 1] == 'r';
    assert PathJoin(dir, file) == dir + "/" + file;
    ExamplePath();
  }

  lemma ExampleFileName()
    ensures "fastqc" + "_" + "before_trim" + "_" + "summary" + ".tsv" == "fastqc_before_trim_summary.tsv"
  {
  }

  lemma ExamplePath()
    ensures "home/output_dir" + "/" + "fastqc_before_trim_summary.tsv" == "home/output_dir/fastqc_before_trim_summary.tsv"
  {
  }

  /** With no `/` in the base, sub-directory or type, the report is the file
      `base_subdir_type.tsv` directly inside the output directory, so reports of different
      types never share a path. */
  lemma OutputPathParts(cfg: Config, kind: string)
    requires cfg.outputDir != [] && cfg.outputDir[|cfg.outputDir| - 1] != '/'
    requires '/' !in cfg.outputBase && '/' !in cfg.subDir && '/' !in kind
    ensures Dirname(BuildOutputPath(cfg, kind)) == cfg.outputDir
    ensures Basename(BuildOutputPath(cfg, kind)) == cfg.outputBase + "_" + cfg.subDir + "_" + kind + ".tsv"
  {
    var file := cfg.outputBase + "_" + cfg.subDir + "_" + kind + ".tsv";
    assert '/' !in file by {
      assert forall c :: c in file ==> c in cfg.outputBase || c in cfg.subDir || c in kind || c in "_.tsv";
    }
    BasenameOfJoin(cfg.outputDir, file);
    DirnameOfJoin(cfg.outputDir, file);
  }

  /** Different report types get different paths, whatever the configuration: the path is
      a prefix fixed by the configuration, then the type, then `.tsv`. */
  lemma OutputPathsDiffer(cfg: Config, kind1: string, kind2: string)
    requires kind1 != kind2
    ensures BuildOutputPath(cfg, kind1) != BuildOutputPath(cfg, kind2)
  {
    var prefix := cfg.outputBase + "_" + cfg.subDir + "_";
    var head := PathJoin(cfg.outputDir, prefix);
    assert cfg.outputBase + "_" + cfg.subDir + "_" + kind1 + ".tsv" == prefix + (kind1 + ".tsv");
    assert cfg.outputBase + "_" + cfg.subDir + "_" + kind2 + ".tsv" == prefix + (kind2 + ".tsv");
    JoinAppend(cfg.outputDir, prefix, kind1 + ".tsv");
    JoinAppend(cfg.outputDir, prefix, kind2 + ".tsv");
    var p1 := head + (kind1 + ".tsv");
    var p2 := head + (kind2 + ".tsv");
    if |kind1| == |kind2| {
      assert p1[|head|..|head| + |kind1|] == kind1;
      assert p2[|head|..|head| + |kind2|] == kind2;
    }
  }

  // ---------------------------------------------------------------------
  // Reading the two files

  /** The non-blank lines of a text, each split on tabs: the rows pandas.read_csv reads. */
  function Tokenise(text: string): (rows: seq<seq<string>>)
    ensures forall i :: 0 <= i < |rows| ==> |rows[i]| >= 1
  {
    NonBlankRows(RSplit(text, "\n"))
  }

  function NonBlankRows(lines: seq<string>): (rows: seq<seq<string>>)
    ensures |rows| <= |lines|
    ensures forall i :: 0 <= i < |rows| ==> |rows[i]| >= 1
  {
    if lines == [] then []
    else (if lines[0] == [] then [] else [RSplit(lines[0], "\t")]) + NonBlankRows(lines[1..])
  }

  /** A field as pandas reads it: an empty field is a missing value. */
  function FieldValue(s: string): (v: Value)
    ensures v == Missing <==> s == []
    ensures v != Missing ==> v == Str(s)
  {
    if s == [] then Missing else Str(s)
  }

  /** Field `j` of a row, empty when the row is shorter. */
  function FieldAt(row: seq<string>, j: nat): string
  {
    if j < |row| then row[j] else ""
  }

  /** A summary line `verdict<TAB>check<TAB>file`: the check (empty when absent) and the
      verdict. */
  function SummaryEntries(rows: seq<seq<string>>): (entries: seq<(string, Value)>)
    requires forall i :: 0 <= i < |rows| ==> |rows[i]| >= 1
    ensures |entries| == |rows|
    ensures forall i :: 0 <= i < |rows| ==> entries[i] == (FieldAt(rows[i], 1), FieldValue(rows[i][0]))
  {
    seq(|rows|, i requires 0 <= i < |rows| => (FieldAt(rows[i], 1), FieldValue(rows[i][0])))
  }

  /** `_parse_fastqc_summary(f_in)`: the sample's verdicts as one column headed by the sample
      name, one row per check (`index_col='Category'`). */
  function ParseFastqcSummary(path: string, text: string): (t: Table)
    ensures Shaped(t) && t.columns == [SampleName(path)]
    ensures Labels(t) == EntryLabels(SummaryEntries(Tokenise(text)))
  {
    Column(SampleName(path), SummaryEntries(Tokenise(text)))
  }

  /** Where the quality module's text lies, as `re.search` with DOTALL finds it: after the
      first `>>Per base sequence quality`, past the end of that line, up to the first
      following `\n>>END_MODULE`; None when either is missing. */
  function SectionBounds(report: string): (r: Option<(nat, nat)>)
    ensures r.Some? ==> r.value.0 <= r.value.1 <= |report|
  {
    SearchBounds(report, QualityMarker, ModuleEnd)
  }

  /** The same search for any marker and module end: the first `marker`, the first line
      break at or after its end, then the first `end` after that line break. */
  function SearchBounds(report: string, marker: string, end: string): (r: Option<(nat, nat)>)
    ensures r.Some? ==> r.value.0 <= r.value.1 <= |report|
  {
    match FindFrom(report, marker, 0)
    case None => None
    case Some(s) =>
      match FindFrom(report, "\n", s + |marker|)
      case None => None
      case Some(n) =>
        match FindFrom(report, end, n + 1)
        case None => None
        case Some(q) => Some((n + 1, q))
  }

  /** `re.search(...).group(1)`: the text of the quality module. Without both markers the
      match is None and `.group` fails. */
  function QualitySection(path: string, report: string): (r: Result<string>)
    ensures r.Err? ==> r.error == MarkerNotFound(path)
  {
    match SectionBounds(report)
    case None => Err(MarkerNotFound(path))
    case Some((from, to)) => Ok(report[from..to])
  }

  /** `section` follows the line break at `n`, which ends the line of the quality marker at
      `s`, and is followed by the first module end after it. */
  ghost predicate SectionAt(report: string, s: nat, n: nat, section: string)
  {
    SectionBetween(report, QualityMarker, ModuleEnd, s, n, section)
  }

  ghost predicate SectionBetween(report: string, marker: string, end: string, s: nat, n: nat, section: string)
  {
    OccursAt(report, marker, s) && s + |marker| <= n && OccursAt(report, "\n", n) &&
    n + 1 + |section| <= |report| && report[n + 1..n + 1 + |section|] == section &&
    OccursAt(report, end, n + 1 + |section|) &&
    forall j: nat :: n + 1 <= j < n + 1 + |section| ==> !OccursAt(report, end, j)
  }

  /** A report without the quality marker has no quality section; a section found lies
      between the end of the marker's line and the next module end. */
  lemma QualitySectionPlacement(path: string, report: string)
    ensures NoOccurrence(report, QualityMarker) ==> QualitySection(path, report) == Err(MarkerNotFound(path))
    ensures QualitySection(path, report).Ok? ==>
      exists s: nat, n: nat :: SectionAt(report, s, n, QualitySection(path, report).value)
  {
    if QualitySection(path, report).Ok? {
      var s, n, q := SearchesOfBounds(report, QualityMarker, ModuleEnd);
      SectionAtSearches(report, QualityMarker, ModuleEnd, s, n, q);
      assert QualitySection(path, report).value == report[n + 1..q];
      assert SectionAt(report, s, n, report[n + 1..q]);
    }
  }

  /** The three searches behind a section that was found. */
  lemma SearchesOfBounds(report: string, marker: string, end: string) returns (s: nat, n: nat, q: nat)
    requires SearchBounds(report, marker, end).Some?
    ensures FindFrom(report, marker, 0) == Some(s)
    ensures FindFrom(report, "\n", s + |marker|) == Some(n)
    ensures FindFrom(report, end, n + 1) == Some(q)
    ensures SearchBounds(report, marker, end) == Some((n + 1, q))
  {
    s := FindFrom(report, marker, 0).value;
    n := FindFrom(report, "\n", s + |marker|).value;
    q := FindFrom(report, end, n + 1).value;
  }

  lemma SectionAtSearches(report: string, marker: string, end: string, s: nat, n: nat, q: nat)
    requires FindFrom(report, marker, 0) == Some(s)
    requires FindFrom(report, "\n", s + |marker|) == Some(n)
    requires FindFrom(report, end, n + 1) == Some(q)
    ensures n + 1 <= q <= |report| && SectionBetween(report, marker, end, s, n, report[n + 1..q])
  {
    var section := report[n + 1..q];
    assert report[n + 1..n + 1 + |section|] == section;
  }

  /** A quality marker at `s` with no `>` before it is the first one. */
  lemma MarkerFirstAt(report: string, s: nat)
    requires OccursAt(report, QualityMarker, s)
    requires forall j :: 0 <= j < s ==> report[j] != '>'
    ensures FindFrom(report, QualityMarker, 0) == Some(s)
  {
    assert QualityMarker[0] == '>';
    forall j: nat | j < s
      ensures !OccursAt(report, QualityMarker, j)
    {
      assert j + |QualityMarker| <= |report| ==> report[j..j + |QualityMarker|][0] == report[j];
    }
  }

  /** A line break at `n` with none between `from` and it is the first one from `from`. */
  lemma LineEndFirstAt(report: string, from: nat, n: nat)
    requires from <= n && OccursAt(report, "\n", n)
    requires forall j :: from <= j < n ==> report[j] != '\n'
    ensures FindFrom(report, "\n", from) == Some(n)
  {
    forall j: nat | from <= j < n
      ensures !OccursAt(report, "\n", j)
    {
      assert j + 1 <= |report| ==> report[j..j + 1][0] == report[j];
    }
  }

  /** A module end at `q` with no `>` between `from` and it is the first one from `from`. */
  lemma ModuleEndFirstAt(report: string, from: nat, q: nat)
    requires from <= q && OccursAt(report, ModuleEnd, q)
    requires forall j :: from < j < q ==> report[j] != '>'
    ensures FindFrom(report, ModuleEnd, from) == Some(q)
  {
    assert ModuleEnd[0] == '\n' && ModuleEnd[1] == '>';
    assert report[q] == report[q..q + |ModuleEnd|][0] == '\n';
    forall j: nat | from <= j < q
      ensures !OccursAt(report, ModuleEnd, j)
    {
      assert report[j + 1] != '>';
      assert j + |ModuleEnd| <= |report| ==> report[j..j + |ModuleEnd|][1] == report[j + 1];
    }
  }

  /** In a report where the quality marker at `s` has no `>` before it, the first line break
      after the marker is at `n`, and the module end at `q` has no `>` between `n` and it,
      the section found is the text between that line break and that module end. */
  lemma QualitySectionFound(path: string, report: string, s: nat, n: nat, q: nat)
    requires OccursAt(report, QualityMarker, s) && forall j :: 0 <= j < s ==> report[j] != '>'
    requires s + |QualityMarker| <= n && OccursAt(report, "\n", n)
    requires forall j :: s + |QualityMarker| <= j < n ==> report[j] != '\n'
    requires n < q && OccursAt(report, ModuleEnd, q) && forall j :: n + 1 < j < q ==> report[j] != '>'
    ensures QualitySection(path, report) == Ok(report[n + 1..q])
  {
    PositionsAreFirst(report, s, n, q);
    SectionFromPositions(path, report, s, n, q);
  }

  lemma PositionsAreFirst(report: string, s: nat, n: nat, q: nat)
    requires OccursAt(report, QualityMarker, s) && forall j :: 0 <= j < s ==> report[j] != '>'
    requires s + |QualityMarker| <= n && OccursAt(report, "\n", n)
    requires forall j :: s + |QualityMarker| <= j < n ==> report[j] != '\n'
    requires n < q && OccursAt(report, ModuleEnd, q) && forall j :: n + 1 < j < q ==> report[j] != '>'
    ensures FindFrom(report, QualityMarker, 0) == Some(s)
    ensures FindFrom(report, "\n", s + |QualityMarker|) == Some(n)
    ensures FindFrom(report, ModuleEnd, n + 1) == Some(q)
  {
    MarkerFirstAt(report, s);
    LineEndAfterMarker(report, s, n);
    ModuleEndAfterLine(report, n, q);
  }

  lemma LineEndAfterMarker(report: string, s: nat, n: nat)
    requires s + |QualityMarker| <= n && OccursAt(report, "\n", n)
    requires forall j :: s + |QualityMarker| <= j < n ==> report[j] != '\n'
    ensures FindFrom(report, "\n", s + |QualityMarker|) == Some(n)
  {
    LineEndFirstAt(report, s + |QualityMarker|, n);
  }

  lemma ModuleEndAfterLine(report: string, n: nat, q: nat)
    requires n < q && OccursAt(report, ModuleEnd, q) && forall j :: n + 1 < j < q ==> report[j] != '>'
    ensures FindFrom(report, ModuleEnd, n + 1) == Some(q)
  {
    ModuleEndFirstAt(report, n + 1, q);
  }

  lemma SectionFromPositions(path: string, report: string, s: nat, n: nat, q: nat)
    requires FindFrom(report, QualityMarker, 0) == Some(s)
    requires FindFrom(report, "\n", s + |QualityMarker|) == Some(n)
    requires FindFrom(report, ModuleEnd, n + 1) == Some(q)
    ensures QualitySection(path, report) == Ok(report[n + 1..q])
  {
    BoundsFromPositions(report, QualityMarker, ModuleEnd, s, n, q);
  }

  lemma BoundsFromPositions(report: string, marker: string, end: string, s: nat, n: nat, q: nat)
    requires FindFrom(report, marker, 0) == Some(s)
    requires FindFrom(report, "\n", s + |marker|) == Some(n)
    requires FindFrom(report, end, n + 1) == Some(q)
    ensures SearchBounds(report, marker, end) == Some((n + 1, q))
  {
  }


  /** The search finds the marker right after any text without a `>`. */
  lemma MarkerStep(before: string, rest: string)
    requires '>' !in before
    ensures FindFrom(before + QualityMarker + rest, QualityMarker, 0) == Some(|before|)
  {
    var report := before + QualityMarker + rest;
    assert report[|before|..|before| + |QualityMarker|] == QualityMarker;
    assert forall j :: 0 <= j < |before| ==> report[j] == before[j];
    MarkerFirstAt(report, |before|);
  }

  /** The header line ends at the first newline after the marker. */
  lemma LineStep(lineStart: string, header: string, rest: string)
    requires '\n' !in header
    ensures FindFrom(lineStart + header + "\n" + rest, "\n", |lineStart|) == Some(|lineStart| + |header|)
  {
    var report := lineStart + header + "\n" + rest;
    var n := |lineStart| + |header|;
    assert report[n..n + 1] == "\n";
    assert forall j :: |lineStart| <= j < n ==> report[j] == header[j - |lineStart|];
    LineEndFirstAt(report, |lineStart|, n);
  }

  /** The section ends at the first `>>END_MODULE` after its start. */
  lemma EndStep(sectionStart: string, section: string, after: string)
    requires '>' !in section
    ensures FindFrom(sectionStart + section + ModuleEnd + after, ModuleEnd, |sectionStart|) == Some(|sectionStart| + |section|)
  {
    var report := sectionStart + section + ModuleEnd + after;
    var q := |sectionStart| + |section|;
    assert report[q..q + |ModuleEnd|] == ModuleEnd;
    assert forall j :: |sectionStart| <= j < q ==> report[j] == section[j - |sectionStart|];
    ModuleEndFirstAt(report, |sectionStart|, q);
  }

  /** The lines of the quality table after its header: the base position (empty when
      absent) and the mean quality. */
  function QualityEntries(rows: seq<seq<string>>, base: nat, mean: nat): (entries: seq<(string, Value)>)
    ensures |entries| == |rows|
    ensures forall i :: 0 <= i < |rows| ==> entries[i] == (FieldAt(rows[i], base), FieldValue(FieldAt(rows[i], mean)))
  {
    seq(|rows|, i requires 0 <= i < |rows| => (FieldAt(rows[i], base), FieldValue(FieldAt(rows[i], mean))))
  }

  /** `pandas.read_csv(section, sep='\t', usecols=['#Base', 'Mean'], index_col='#Base')`
      with the column renamed to the sample: the mean quality per base position. A section
      without a header line, or whose header lacks `#Base` or `Mean`, cannot be read, and nor
      can a line with more fields than the header. */
  function ParseQuality(path: string, section: string): (r: Result<Table>)
    ensures r.Ok? ==> Shaped(r.value) && r.value.columns == [SampleName(path)]
  {
    var rows := Tokenise(section);
    if rows == [] then Err(NoColumns(path))
    else
      var header := rows[0];
      if "#Base" !in header then Err(MissingColumn("#Base"))
      else if "Mean" !in header then Err(MissingColumn("Mean"))
      else if exists i :: 1 <= i < |rows| && |rows[i]| > |header| then Err(TooManyFields(path))
      else
        Ok(Column(SampleName(path), QualityEntries(rows[1..], IndexOf(header, "#Base"), IndexOf(header, "Mean"))))
  }

  /** The quality table is read exactly when the section has a header line naming both
      `#Base` and `Mean` and no longer line; the errors are checked in that order; the table
      read holds, under the sample's name, each line's mean quality labelled by its base
      position. */
  lemma ParseQualityOutcome(path: string, section: string)
    ensures var rows := Tokenise(section);
      (rows == [] ==> ParseQuality(path, section) == Err(NoColumns(path))) &&
      (rows != [] && "#Base" !in rows[0] ==> ParseQuality(path, section) == Err(MissingColumn("#Base"))) &&
      (rows != [] && "#Base" in rows[0] && "Mean" !in rows[0] ==>
        ParseQuality(path, section) == Err(MissingColumn("Mean"))) &&
      (ParseQuality(path, section).Ok? <==> (rows != [] && "#Base" in rows[0] && "Mean" in rows[0] &&
        forall i :: 1 <= i < |rows| ==> |rows[i]| <= |rows[0]|)) &&
      (rows != [] && "#Base" in rows[0] && "Mean" in rows[0] && ParseQuality(path, section).Err? ==>
        ParseQuality(path, section) == Err(TooManyFields(path))) &&
      (ParseQuality(path, section).Ok? ==>
        ParseQuality(path, section).value == Column(SampleName(path), QualityEntries(rows[1..], IndexOf(rows[0], "#Base"), IndexOf(rows[0], "Mean"))))
  {
  }

  /** `_parse_fastqc_quality(f_in)`: the quality module cut out of the report, then read. */
  function ParseFastqcQuality(path: string, report: string): (r: Result<Table>)
    ensures QualitySection(path, report).Err? ==> r == Err(MarkerNotFound(path))
    ensures r.Ok? ==> Shaped(r.value) && r.value.columns == [SampleName(path)]
  {
    match QualitySection(path, report)
    case Err(e) => Err(e)
    case Ok(section) => ParseQuality(path, section)
  }

  /** One folder's two tables, or the first exception reading them raises: `summary.txt`
      is opened and read first, then `fastqc_data.txt`. */
  function FolderTables(folder: File<FastqcFolder>): (r: Result<(Table, Table)>)
    ensures r.Ok? ==> Shaped(r.value.0) && Shaped(r.value.1)
  {
    var summaryFp := PathJoin(folder.path, "summary.txt");
    var dataFp := PathJoin(folder.path, "fastqc_data.txt");
    match folder.content.summary
    case None => Err(Unreadable(summaryFp))
    case Some(summaryText) =>
      match folder.content.data
      case None => Err(Unreadable(dataFp))
      case Some(report) =>
        match ParseFastqcQuality(dataFp, report)
        case Err(e) => Err(e)
        case Ok(quality) => Ok((ParseFastqcSummary(summaryFp, summaryText), quality))
  }

  /** The verdict lines of a folder's summary (none when it cannot be read). */
  function SummaryLines(folder: File<FastqcFolder>): seq<(string, Value)>
  {
    match folder.content.summary
    case Some(text) => SummaryEntries(Tokenise(text))
    case None => []
  }

  /** The mean-quality lines of a folder's quality module (none when they cannot be read). */
  function QualityLines(folder: File<FastqcFolder>): seq<(string, Value)>
  {
    match folder.content.data
    case None => []
    case Some(report) =>
      match QualitySection(PathJoin(folder.path, "fastqc_data.txt"), report)
      case Err(_) => []
      case Ok(section) =>
        var rows := Tokenise(section);
        if rows == [] || "#Base" !in rows[0] || "Mean" !in rows[0] then []
        else QualityEntries(rows[1..], IndexOf(rows[0], "#Base"), IndexOf(rows[0], "Mean"))
  }

  /** A folder whose summary cannot be opened fails on it before its data file is opened; a
      folder read in full gives its verdicts and its mean qualities, each as one column headed
      by the sample name. */
  lemma FolderTablesOutcome(folder: File<FastqcFolder>)
    ensures folder.content.summary.None? ==>
      FolderTables(folder) == Err(Unreadable(PathJoin(folder.path, "summary.txt")))
    ensures folder.content.summary.Some? && folder.content.data.None? ==>
      FolderTables(folder) == Err(Unreadable(PathJoin(folder.path, "fastqc_data.txt")))
    ensures FolderTables(folder).Ok? <==> (folder.content.summary.Some? && folder.content.data.Some? &&
      ParseFastqcQuality(PathJoin(folder.path, "fastqc_data.txt"), folder.content.data.value).Ok?)
    ensures FolderTables(folder).Ok? ==>
      FolderTables(folder).value.0 == Column(SampleName(PathJoin(folder.path, "summary.txt")), SummaryLines(folder)) &&
      FolderTables(folder).value.1 == Column(SampleName(PathJoin(folder.path, "fastqc_data.txt")), QualityLines(folder))
  {
    if FolderTables(folder).Ok? {
      var dataFp := PathJoin(folder.path, "fastqc_data.txt");
      ParseQualityOutcome(dataFp, QualitySection(dataFp, folder.content.data.value).value);
    }
  }

  // ---------------------------------------------------------------------
  // Merging and writing

  /** Every folder's tables, in the order of the folder list, or the first exception. */
  function ParsedFolders(folders: seq<File<FastqcFolder>>): Result<seq<(Table, Table)>>
  {
    Collect(folders, FolderTables)
  }

  function Summaries(pairs: seq<(Table, Table)>): (ts: seq<Table>)
    ensures |ts| == |pairs|
  {
    seq(|pairs|, k requires 0 <= k < |pairs| => pairs[k].0)
  }

  function Qualities(pairs: seq<(Table, Table)>): (ts: seq<Table>)
    ensures |ts| == |pairs|
  {
    seq(|pairs|, k requires 0 <= k < |pairs| => pairs[k].1)
  }

  /** Every pair that FolderTables returns holds two shaped tables. */
  lemma ParsedShaped(folders: seq<File<FastqcFolder>>)
    requires ParsedFolders(folders).Ok?
    ensures AllShaped(Summaries(ParsedFolders(folders).value))
    ensures AllShaped(Qualities(ParsedFolders(folders).value))
  {
    var pairs := ParsedFolders(folders).value;
    forall k | 0 <= k < |pairs|
      ensures Shaped(pairs[k].0) && Shaped(pairs[k].1)
    {
      assert FolderTables(folders[k]) == Ok(pairs[k]);
    }
  }

  /** `pandas.concat(summary_list, axis=1)`: not transposed, so one row per check and one
      column per sample. */
  function SummaryTable(folders: seq<File<FastqcFolder>>): (r: Result<Table>)
    ensures ParsedFolders(folders).Err? ==> r == Err(ParsedFolders(folders).error)
    ensures r.Ok? ==> ParsedFolders(folders).Ok? && Shaped(r.value)
  {
    match ParsedFolders(folders)
    case Err(e) => Err(e)
    case Ok(pairs) =>
      ParsedShaped(folders);
      SideBySide(Summaries(pairs))
  }

  /** `pandas.concat(quality_list, axis=1).transpose()`: one row per sample and one column
      per base position. */
  function QualityTable(folders: seq<File<FastqcFolder>>): (r: Result<Table>)
    ensures ParsedFolders(folders).Err? ==> r == Err(ParsedFolders(folders).error)
    ensures r.Ok? ==> ParsedFolders(folders).Ok? && Shaped(r.value)
  {
    match ParsedFolders(folders)
    case Err(e) => Err(e)
    case Ok(pairs) =>
      ParsedShaped(folders);
      match SideBySide(Qualities(pairs))
      case Err(e) => Err(e)
      case Ok(t) => Ok(Transpose(t))
  }

  /** Appending a pair appends its summary and its quality table. */
  lemma PairsAppend(pairs: seq<(Table, Table)>, p: (Table, Table))
    ensures Summaries(pairs + [p]) == Summaries(pairs) + [p.0]
    ensures Qualities(pairs + [p]) == Qualities(pairs) + [p.1]
  {
    assert Summaries(pairs + [p])[..|pairs|] == Summaries(pairs);
    assert Qualities(pairs + [p])[..|pairs|] == Qualities(pairs);
  }

  /** Once every folder is read, the two reports are the merges of what was read. */
  lemma TablesOfParsed(folders: seq<File<FastqcFolder>>, pairs: seq<(Table, Table)>)
    requires ParsedFolders(folders) == Ok(pairs)
    ensures AllShaped(Summaries(pairs)) && AllShaped(Qualities(pairs))
    ensures SummaryTable(folders) == SideBySide(Summaries(pairs))
    ensures SideBySide(Qualities(pairs)).Err? ==> QualityTable(folders) == Err(SideBySide(Qualities(pairs)).error)
    ensures SideBySide(Qualities(pairs)).Ok? ==> QualityTable(folders) == Ok(Transpose(SideBySide(Qualities(pairs)).value))
  {
    ParsedShaped(folders);
  }

  /** What `run()` writes: the summary report (the checks under `Category`), then the
      quality report (the samples under `Samples`), missing values as empty fields. The
      summary report is written before the quality tables are merged, so a failure there
      leaves the summary report behind. */
  function Reports(cfg: Config, listing: seq<File<FastqcFolder>>): (o: Outcome)
    ensures o.failure.None? <==> |o.written| == 2
  {
    var folders := SortByPath(listing);
    match SummaryTable(folders)
    case Err(e) => Outcome([], Some(e))
    case Ok(summary) =>
      var summaryFile := File(BuildOutputPath(cfg, "summary"), Render(summary, "Category", ""));
      match QualityTable(folders)
      case Err(e) => Outcome([summaryFile], Some(e))
      case Ok(quality) =>
        Outcome([summaryFile, File(BuildOutputPath(cfg, "quality"), Render(quality, "Samples", ""))], None)
  }

  /** A folder that cannot be read or parsed stops the run before anything is written; a
      failure to merge the quality tables leaves only the summary report; otherwise both
      reports are written, summary first. */
  lemma ReportsWritten(cfg: Config, listing: seq<File<FastqcFolder>>)
    ensures ParsedFolders(SortByPath(listing)).Err? ==>
      Reports(cfg, listing) == Outcome([], Some(ParsedFolders(SortByPath(listing)).error))
    ensures |Reports(cfg, listing).written| >= 1 <==> SummaryTable(SortByPath(listing)).Ok?
    ensures |Reports(cfg, listing).written| >= 1 ==>
      Reports(cfg, listing).written[0] ==
        File(BuildOutputPath(cfg, "summary"), Render(SummaryTable(SortByPath(listing)).value, "Category", ""))
    ensures Reports(cfg, listing).failure.None? <==>
      (SummaryTable(SortByPath(listing)).Ok? && QualityTable(SortByPath(listing)).Ok?)
    ensures Reports(cfg, listing).failure.None? ==>
      Reports(cfg, listing).written[1] ==
        File(BuildOutputPath(cfg, "quality"), Render(QualityTable(SortByPath(listing)).value, "Samples", ""))
  {
    if ParsedFolders(SortByPath(listing)).Err? {
      assert SummaryTable(SortByPath(listing)).Err?;
    }
  }

  /** Folder `k` gives the `k`-th pair of tables. */
  lemma ParsedFolder(folders: seq<File<FastqcFolder>>, k: nat)
    requires ParsedFolders(folders).Ok? && k < |folders|
    ensures |ParsedFolders(folders).value| == |folders|
    ensures var f := folders[k];
      ParsedFolders(folders).value[k] ==
        (Column(SampleName(PathJoin(f.path, "summary.txt")), SummaryLines(f)),
         Column(SampleName(PathJoin(f.path, "fastqc_data.txt")), QualityLines(f)))
  {
    FolderTablesOutcome(folders[k]);
  }

  /** The sample names that the file called `file` inside each folder gives. */
  function FileSampleNames(folders: seq<File<FastqcFolder>>, file: string): (names: seq<string>)
    ensures |names| == |folders|
  {
    seq(|folders|, k requires 0 <= k < |folders| => SampleName(PathJoin(folders[k].path, file)))
  }

  /** The summary lines of the folders. */
  function SummaryLineLists(folders: seq<File<FastqcFolder>>): (lines: seq<seq<(string, Value)>>)
    ensures |lines| == |folders|
  {
    seq(|folders|, k requires 0 <= k < |folders| => SummaryLines(folders[k]))
  }

  /** The summary report is the one-column summary tables side by side. */
  lemma SummaryTableMerged(folders: seq<File<FastqcFolder>>, t: Table)
    requires SummaryTable(folders) == Ok(t)
    ensures SideBySide(Columns(FileSampleNames(folders, "summary.txt"), SummaryLineLists(folders))) == Ok(t)
  {
    var pairs := ParsedFolders(folders).value;
    TablesOfParsed(folders, pairs);
    SummariesAreColumns(folders, pairs);
  }

  /** Folder k's summary table is the column of its sample's verdicts. */
  lemma SummariesAreColumns(folders: seq<File<FastqcFolder>>, pairs: seq<(Table, Table)>)
    requires ParsedFolders(folders) == Ok(pairs)
    ensures Summaries(pairs) == Columns(FileSampleNames(folders, "summary.txt"), SummaryLineLists(folders))
  {
    forall k | 0 <= k < |folders|
      ensures Summaries(pairs)[k] == Column(FileSampleNames(folders, "summary.txt")[k], SummaryLineLists(folders)[k])
    {
      ParsedFolder(folders, k);
    }
  }

  /** The summary report has a column per folder, in the order of the folder list, headed by
      its sample name;
      a row per check of any folder; and under a sample's column, that folder's verdict for
      the check, or Missing when its summary does not list it. */
  lemma SummaryTableContents(folders: seq<File<FastqcFolder>>, t: Table)
    requires SummaryTable(folders) == Ok(t)
    ensures t.columns == FileSampleNames(folders, "summary.txt")
    ensures Distinct(Labels(t))
    ensures forall l :: l in Labels(t) <==>
      exists k :: 0 <= k < |folders| && l in EntryLabels(SummaryLineLists(folders)[k])
    ensures forall i, k :: 0 <= i < |t.rows| && 0 <= k < |folders| ==>
      k < |t.rows[i].cells| && t.rows[i].cells[k] == ValueOf(SummaryLineLists(folders)[k], t.rows[i].name)
  {
    SummaryTableMerged(folders, t);
    SideBySideColumns(FileSampleNames(folders, "summary.txt"), SummaryLineLists(folders), t);
  }

  /** The mean-quality lines of the folders. */
  function QualityLineLists(folders: seq<File<FastqcFolder>>): (lines: seq<seq<(string, Value)>>)
    ensures |lines| == |folders|
  {
    seq(|folders|, k requires 0 <= k < |folders| => QualityLines(folders[k]))
  }

  /** The quality report is the one-column quality tables side by side, turned over. */
  lemma QualityTableMerged(folders: seq<File<FastqcFolder>>, t: Table)
    requires QualityTable(folders) == Ok(t)
    ensures SideBySide(Columns(FileSampleNames(folders, "fastqc_data.txt"), QualityLineLists(folders))).Ok?
    ensures t == Transpose(SideBySide(Columns(FileSampleNames(folders, "fastqc_data.txt"), QualityLineLists(folders))).value)
  {
    var pairs := ParsedFolders(folders).value;
    TablesOfParsed(folders, pairs);
    QualitiesAreColumns(folders, pairs);
  }

  /** Folder k's quality table is the column of its sample's mean qualities. */
  lemma QualitiesAreColumns(folders: seq<File<FastqcFolder>>, pairs: seq<(Table, Table)>)
    requires ParsedFolders(folders) == Ok(pairs)
    ensures Qualities(pairs) == Columns(FileSampleNames(folders, "fastqc_data.txt"), QualityLineLists(folders))
  {
    forall k | 0 <= k < |folders|
      ensures Qualities(pairs)[k] == Column(FileSampleNames(folders, "fastqc_data.txt")[k], QualityLineLists(folders)[k])
    {
      ParsedFolder(folders, k);
    }
  }

  /** The quality report has a row per folder, in the order of the folder list, labelled by
      its sample name; a column per base position of any folder; and in a sample's row, that
      folder's mean quality at the position, or Missing when its table has no such
      position. */
  lemma QualityTableContents(folders: seq<File<FastqcFolder>>, t: Table)
    requires QualityTable(folders) == Ok(t)
    ensures Labels(t) == FileSampleNames(folders, "fastqc_data.txt")
    ensures Distinct(t.columns)
    ensures forall b :: b in t.columns <==>
      exists k :: 0 <= k < |folders| && b in EntryLabels(QualityLineLists(folders)[k])
    ensures forall k, j :: 0 <= k < |folders| && 0 <= j < |t.columns| ==>
      t.rows[k].cells[j] == ValueOf(QualityLineLists(folders)[k], t.columns[j])
  {
    QualityTableMerged(folders, t);
    var names := FileSampleNames(folders, "fastqc_data.txt");
    var lines := QualityLineLists(folders);
    SideBySideColumnsTransposed(names, lines, SideBySide(Columns(names, lines)).value);
  }

  /** The reports are written as their tables: the summary report starts with `Category`,
      the quality report with `Samples`, and each reads back as its table. */
  lemma WrittenReports(summary: Table, quality: Table)
    requires Shaped(summary) && Shaped(quality)
    ensures "Category" <= Render(summary, "Category", "")
    ensures "Samples" <= Render(quality, "Samples", "")
    ensures Plain(Records(summary, "Category", "")) ==>
      Parse(Render(summary, "Category", "")) == Records(summary, "Category", "")
    ensures Plain(Records(quality, "Samples", "")) ==>
      Parse(Render(quality, "Samples", "")) == Records(quality, "Samples", "")
  {
    assert !NeedsQuoting("Category") by {
      assert "Category" == ['C', 'a', 't', 'e', 'g', 'o', 'r', 'y'];
    }
    assert !NeedsQuoting("Samples") by {
      assert "Samples" == ['S', 'a', 'm', 'p', 'l', 'e', 's'];
    }
    RenderStartsWith(summary, "Category", "");
    RenderStartsWith(quality, "Samples", "");
    if Plain(Records(summary, "Category", "")) {
      RenderRoundTrip(summary, "Category", "");
    }
    if Plain(Records(quality, "Samples", "")) {
      RenderRoundTrip(quality, "Samples", "");
    }
  }

  /** A folder that fails after the ones before it were read stops the run with its error. */
  lemma FolderStops(cfg: Config, listing: seq<File<FastqcFolder>>, i: nat, pairs: seq<(Table, Table)>)
    requires i < |SortByPath(listing)|
    requires Collect(SortByPath(listing)[..i], FolderTables) == Ok(pairs)
    requires FolderTables(SortByPath(listing)[i]).Err?
    ensures Reports(cfg, listing) == Outcome([], Some(FolderTables(SortByPath(listing)[i]).error))
  {
    ParsedStops(SortByPath(listing), i, pairs);
    ReportsWritten(cfg, listing);
  }

  lemma ParsedStops(folders: seq<File<FastqcFolder>>, i: nat, pairs: seq<(Table, Table)>)
    requires i < |folders|
    requires Collect(folders[..i], FolderTables) == Ok(pairs)
    requires FolderTables(folders[i]).Err?
    ensures ParsedFolders(folders) == Err(FolderTables(folders[i]).error)
  {
    assert folders[..i + 1][..i] == folders[..i];
    assert Collect(folders[..i + 1], FolderTables) == Err(FolderTables(folders[i]).error);
    CollectFailsEarly(folders, FolderTables, i + 1);
  }

  /** Once every folder is read, the outcome follows from merging what was read. */
  lemma ReportsOfParsed(cfg: Config, listing: seq<File<FastqcFolder>>, pairs: seq<(Table, Table)>)
    requires ParsedFolders(SortByPath(listing)) == Ok(pairs)
    ensures AllShaped(Summaries(pairs)) && AllShaped(Qualities(pairs))
    ensures SideBySide(Summaries(pairs)).Err? ==> Reports(cfg, listing) == Outcome([], Some(SideBySide(Summaries(pairs)).error))
    ensures SideBySide(Summaries(pairs)).Ok? && SideBySide(Qualities(pairs)).Err? ==>
      Reports(cfg, listing) == Outcome([File(BuildOutputPath(cfg, "summary"), Render(SideBySide(Summaries(pairs)).value, "Category", ""))],
        Some(SideBySide(Qualities(pairs)).error))
    ensures SideBySide(Summaries(pairs)).Ok? && SideBySide(Qualities(pairs)).Ok? ==>
      Reports(cfg, listing) == Outcome([File(BuildOutputPath(cfg, "summary"), Render(SideBySide(Summaries(pairs)).value, "Category", "")),
        File(BuildOutputPath(cfg, "quality"), Render(Transpose(SideBySide(Qualities(pairs)).value), "Samples", ""))], None)
  {
    TablesOfParsed(SortByPath(listing), pairs);
  }

  /** `run()`: for each folder in path order, its summary is read and kept, then its quality
      module; the summaries are merged and written, then the quality tables are merged,
      transposed and written. */
  method Run(cfg: Config, listing: seq<File<FastqcFolder>>) returns (outcome: Outcome)
    ensures outcome == Reports(cfg, listing)
  {
    var folders := SortByPath(listing);
    var summaryList: seq<Table> := [];
    var qualityList: seq<Table> := [];
    ghost var pairs: seq<(Table, Table)> := [];
    var i := 0;
    while i < |folders|
      invariant 0 <= i <= |folders|
      invariant Collect(folders[..i], FolderTables) == Ok(pairs)
      invariant summaryList == Summaries(pairs) && qualityList == Qualities(pairs)
    {
      var folder := folders[i];
      var summaryFp := PathJoin(folder.path, "summary.txt");
      if folder.content.summary.None? {
        assert FolderTables(folder) == Err(Unreadable(summaryFp));
        FolderStops(cfg, listing, i, pairs);
        return Outcome([], Some(Unreadable(summaryFp)));
      }
      var summary := ParseFastqcSummary(summaryFp, folder.content.summary.value);
      summaryList := summaryList + [summary];
      var dataFp := PathJoin(folder.path, "fastqc_data.txt");
      if folder.content.data.None? {
        assert FolderTables(folder) == Err(Unreadable(dataFp));
        FolderStops(cfg, listing, i, pairs);
        return Outcome([], Some(Unreadable(dataFp)));
      }
      var quality := ParseFastqcQuality(dataFp, folder.content.data.value);
      if quality.Err? {
        assert FolderTables(folder) == Err(quality.error);
        FolderStops(cfg, listing, i, pairs);
        return Outcome([], Some(quality.error));
      }
      qualityList := qualityList + [quality.value];
      assert FolderTables(folder) == Ok((summary, quality.value));
      CollectExtends(folders, FolderTables, i, pairs);
      PairsAppend(pairs, (summary, quality.value));
      pairs := pairs + [(summary, quality.value)];
      i := i + 1;
    }
    assert folders[..i] == folders;
    ReportsOfParsed(cfg, listing, pairs);
    var summaryTable := SideBySide(summaryList);
    if summaryTable.Err? {
      return Outcome([], Some(summaryTable.error));
    }
    var summaryFile := File(BuildOutputPath(cfg, "summary"), Render(summaryTable.value, "Category", ""));
    var qualityTable := SideBySide(qualityList);
    if qualityTable.Err? {
      return Outcome([summaryFile], Some(qualityTable.error));
    }
    var transposed := Transpose(qualityTable.value);
    outcome := Outcome([summaryFile, File(BuildOutputPath(cfg, "quality"), Render(transposed, "Samples", ""))], None);
  }
}
