/** pandas' `DataFrame.to_csv(sep='\t')`: a header line led by the index label, one line per
    row led by its label, Python csv's minimal quoting, and a fixed token (`na_rep`) for
    missing cells. */
module TsvOutput {
  import opened Base
  import opened Text
  import opened Tables

  /** csv.QUOTE_MINIMAL: a field is quoted when it holds the delimiter, the quote character
      or a line break. */
  predicate NeedsQuoting(f: string)
  {
    '\t' in f || '"' in f || '\n' in f || '\r' in f
  }

  /** Every '"' written twice, as inside a quoted field. */
  function Double(f: string): (r: string)
    ensures forall c :: c != '"' ==> (c in r <==> c in f)
  {
    if f == [] then []
    else
      assert f == [f[0]] + f[1..];
      (if f[0] == '"' then "\"\"" else [f[0]]) + Double(f[1..])
  }

  /** Reads a doubled '"' as one. */
  function Undouble(s: string): string
  {
    if |s| >= 2 && s[0] == '"' && s[1] == '"' then "\"" + Undouble(s[2..])
    else if s == [] then []
    else [s[0]] + Undouble(s[1..])
  }

  lemma {:induction false} UndoubleDouble(f: string)
    ensures Undouble(Double(f)) == f
  {
    if f != [] {
      UndoubleDouble(f[1..]);
      var d := Double(f);
      if f[0] == '"' {
        assert d == "\"\"" + Double(f[1..]);
        assert d[2..] == Double(f[1..]);
      } else {
        assert d == [f[0]] + Double(f[1..]);
        assert d[1..] == Double(f[1..]);
      }
      assert f == [f[0]] + f[1..];
    }
  }

  /** A field as a csv reader reads it back: the outer quotes removed and doubled quotes
      undoubled. */
  function Unquote(s: string): string
  {
    if |s| >= 2 && s[0] == '"' && s[|s| - 1] == '"' then Undouble(s[1..|s| - 1]) else s
  }

  /** A field as the csv writer writes it. A csv reader gets the field back, and quoting adds
      no tab or line break. */
  function Quote(f: string): (r: string)
    ensures !NeedsQuoting(f) ==> r == f
    ensures NeedsQuoting(f) ==> |r| >= 2 && r[0] == '"' && r[|r| - 1] == '"'
    ensures Unquote(r) == f
    ensures forall c :: c != '"' ==> (c in r <==> c in f)
  {
    if NeedsQuoting(f) then
      var r := "\"" + Double(f) + "\"";
      assert r[1..|r| - 1] == Double(f);
      UndoubleDouble(f);
      r
    else
      f
  }

  /** The text of one cell: `na` for a missing cell, the text itself, or the decimal digits. */
  function CellText(v: Value, na: string): string
  {
    match v
    case Missing => na
    case Str(s) => s
    case Int(n) => ShowInt(n)
  }

  /** The fields of the header and of every row, before quoting: the index label over the
      row labels, and under each column the cells' texts, with `na` for every missing cell. */
  function Records(t: Table, indexLabel: string, na: string): (r: seq<seq<string>>)
    requires Shaped(t)
    ensures |r| == |t.rows| + 1
    ensures r[0] == [indexLabel] + t.columns
    ensures forall i :: 0 <= i < |t.rows| ==> |r[i + 1]| == |t.columns| + 1 && r[i + 1][0] == t.rows[i].name
    ensures forall i, j :: 0 <= i < |t.rows| && 0 <= j < |t.columns| ==>
      j + 1 < |r[i + 1]| && r[i + 1][j + 1] == CellText(t.rows[i].cells[j], na)
    ensures forall i, j :: 0 <= i < |t.rows| && 0 <= j < |t.columns| && t.rows[i].cells[j] == Missing ==>
      j + 1 < |r[i + 1]| && r[i + 1][j + 1] == na
  {
    [[indexLabel] + t.columns] +
    seq(|t.rows|, i requires 0 <= i < |t.rows| =>
      [t.rows[i].name] + seq(|t.columns|, j requires 0 <= j < |t.columns| => CellText(t.rows[i].cells[j], na)))
  }

  /** One line without its terminator: the quoted fields separated by tabs. */
  function Line(fields: seq<string>): string
    requires |fields| >= 1
  {
    Join(seq(|fields|, k requires 0 <= k < |fields| => Quote(fields[k])), "\t")
  }

  function Lines(records: seq<seq<string>>): (r: seq<string>)
    requires forall i :: 0 <= i < |records| ==> |records[i]| >= 1
    ensures |r| == |records|
  {
    seq(|records|, i requires 0 <= i < |records| => Line(records[i]))
  }

  /** `t.to_csv(path, sep='\t', na_rep=na, index_label=indexLabel)`: every line ends in '\n'. */
  function Render(t: Table, indexLabel: string, na: string): string
    requires Shaped(t)
  {
    Join(Lines(Records(t, indexLabel, na)), "\n") + "\n"
  }

  /** Reading the text back: lines split on '\n' (after the final terminator), fields split
      on tabs and unquoted. */
  function Parse(text: string): seq<seq<string>>
  {
    var lines := RSplit(Body(text), "\n");
    seq(|lines|, i requires 0 <= i < |lines| => Fields(lines[i]))
  }

  /** The text without its final line terminator. */
  function Body(text: string): string
  {
    if |text| > 0 && text[|text| - 1] == '\n' then text[..|text| - 1] else text
  }

  /** One line's fields: split on tabs and unquoted. */
  function Fields(line: string): seq<string>
  {
    var pieces := RSplit(line, "\t");
    seq(|pieces|, k requires 0 <= k < |pieces| => Unquote(pieces[k]))
  }

  /** A character in neither the separator nor any part is not in the joined text. */
  lemma {:induction false} JoinAvoids(parts: seq<string>, sep: string, c: char)
    requires |parts| >= 1
    requires c !in sep && forall i :: 0 <= i < |parts| ==> c !in parts[i]
    ensures c !in Join(parts, sep)
    decreases |parts|
  {
    if |parts| > 1 {
      JoinAvoids(parts[..|parts| - 1], sep, c);
    }
  }

  /** No field holds a tab or a line break. */
  predicate Plain(records: seq<seq<string>>)
  {
    forall i, k :: 0 <= i < |records| && 0 <= k < |records[i]| ==>
      '\t' !in records[i][k] && '\n' !in records[i][k]
  }

  /** Reading one written line back gives its fields. */
  lemma LineRoundTrip(fields: seq<string>)
    requires |fields| >= 1
    requires forall k :: 0 <= k < |fields| ==> '\t' !in fields[k] && '\n' !in fields[k]
    ensures '\n' !in Line(fields)
    ensures Fields(Line(fields)) == fields
  {
    var quoted := seq(|fields|, k requires 0 <= k < |fields| => Quote(fields[k]));
    assert forall k :: 0 <= k < |quoted| ==> '\t' !in quoted[k] && '\n' !in quoted[k];
    assert Line(fields) == Join(quoted, "\t");
    SplitJoinRoundTrip(quoted, '\t');
    FieldsOfQuoted(Line(fields), fields);
    JoinAvoids(quoted, "\t", '\n');
  }

  /** A line whose pieces are the quoted fields reads back as the fields. */
  lemma FieldsOfQuoted(line: string, fields: seq<string>)
    requires |RSplit(line, "\t")| == |fields|
    requires forall k :: 0 <= k < |fields| ==> RSplit(line, "\t")[k] == Quote(fields[k])
    ensures Fields(line) == fields
  {
    var read := Fields(line);
    forall k | 0 <= k < |fields|
      ensures read[k] == fields[k]
    {
      assert Unquote(Quote(fields[k])) == fields[k];
    }
  }

  /** Reading the written text back gives the header and every row, cell for cell: the table
      survives the round trip whenever no label, column name or cell text holds a tab or a
      line break. */
  lemma RenderRoundTrip(t: Table, indexLabel: string, na: string)
    requires Shaped(t)
    requires Plain(Records(t, indexLabel, na))
    ensures Parse(Render(t, indexLabel, na)) == Records(t, indexLabel, na)
  {
    TextRoundTrip(Records(t, indexLabel, na));
  }

  /** Records without tabs or line breaks, written line by line, read back as themselves. */
  lemma TextRoundTrip(records: seq<seq<string>>)
    requires |records| >= 1 && forall i :: 0 <= i < |records| ==> |records[i]| >= 1
    requires Plain(records)
    ensures Parse(Join(Lines(records), "\n") + "\n") == records
  {
    var lines := Lines(records);
    LinesRoundTrip(records);
    SplitJoinRoundTrip(lines, '\n');
    var text := Join(lines, "\n") + "\n";
    assert Body(text) == Join(lines, "\n");
    ParseLines(text, lines, records);
  }

  lemma LinesRoundTrip(records: seq<seq<string>>)
    requires forall i :: 0 <= i < |records| ==> |records[i]| >= 1
    requires Plain(records)
    ensures |records| >= 1 ==> |Lines(records)| >= 1
    ensures forall i :: 0 <= i < |records| ==> '\n' !in Lines(records)[i] && Fields(Lines(records)[i]) == records[i]
  {
    forall i | 0 <= i < |records|
      ensures '\n' !in Lines(records)[i] && Fields(Lines(records)[i]) == records[i]
    {
      LineRoundTrip(records[i]);
    }
  }

  /** Text whose lines split back into `lines` parses into those lines' fields. */
  lemma ParseLines(text: string, lines: seq<string>, records: seq<seq<string>>)
    requires RSplit(Body(text), "\n") == lines && |lines| == |records|
    requires forall i :: 0 <= i < |lines| ==> Fields(lines[i]) == records[i]
    ensures Parse(text) == records
  {
  }

  /** The written text starts with the index label, as long as the label needs no quotes. */
  lemma RenderStartsWith(t: Table, indexLabel: string, na: string)
    requires Shaped(t) && !NeedsQuoting(indexLabel)
    ensures indexLabel <= Render(t, indexLabel, na)
  {
    var records := Records(t, indexLabel, na);
    var lines := Lines(records);
    var quoted := seq(|records[0]|, k requires 0 <= k < |records[0]| => Quote(records[0][k]));
    JoinStartsWith(quoted, "\t");
    JoinStartsWith(lines, "\n");
  }
}
