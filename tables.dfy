/** The part of pandas the report code relies on: labelled tables, stacking them
    (`concat`), placing them side by side with an outer join on the row labels
    (`concat(axis=1)`), selecting columns and transposing. */
module Tables {
  import opened Base

  /** One labelled row: its label (the index entry) and one cell per column. */
  datatype Row = Row(name: string, cells: seq<Value>)

  /** A table: its column labels and its rows, in order. */
  datatype Table = Table(columns: seq<string>, rows: seq<Row>)

  /** Every row has one cell per column. */
  predicate Shaped(t: Table)
  {
    forall i :: 0 <= i < |t.rows| ==> |t.rows[i].cells| == |t.columns|
  }

  predicate Distinct<T(==)>(s: seq<T>)
  {
    forall i, j :: 0 <= i < j < |s| ==> s[i] != s[j]
  }

  function RowLabels(rows: seq<Row>): (r: seq<string>)
    ensures |r| == |rows|
  {
    seq(|rows|, i requires 0 <= i < |rows| => rows[i].name)
  }

  /** The row labels (the index) of a table. */
  function Labels(t: Table): (r: seq<string>)
    ensures |r| == |t.rows|
  {
    RowLabels(t.rows)
  }

  /** The first position of `x` in `s`. */
  function IndexOf<T(==)>(s: seq<T>, x: T): (i: nat)
    requires x in s
    ensures i < |s| && s[i] == x
    ensures forall j :: 0 <= j < i ==> s[j] != x
  {
    if s[0] == x then 0 else 1 + IndexOf(s[1..], x)
  }

  /** Row `i`'s cell under column `c`; Missing when the table has no column `c`. */
  function Get(t: Table, i: nat, c: string): Value
    requires Shaped(t) && i < |t.rows|
  {
    if c in t.columns then t.rows[i].cells[IndexOf(t.columns, c)] else Missing
  }

  /** The cell at column position `j` of the row labelled `l`; Missing when no row has that label. */
  function CellFor(t: Table, l: string, j: nat): Value
    requires Shaped(t) && j < |t.columns|
  {
    if l in Labels(t) then t.rows[IndexOf(Labels(t), l)].cells[j] else Missing
  }

  // ---------------------------------------------------------------------
  // Concatenation of lists

  function Concat<T>(ss: seq<seq<T>>): seq<T>
  {
    if ss == [] then [] else Concat(ss[..|ss| - 1]) + ss[|ss| - 1]
  }

  /** Element `j` of part `k` stands at offset |Concat(ss[..k])| + j of the concatenation. */
  lemma {:induction false} ConcatAt<T>(ss: seq<seq<T>>, k: nat, j: nat)
    requires k < |ss| && j < |ss[k]|
    ensures |Concat(ss[..k])| + j < |Concat(ss)|
    ensures Concat(ss)[|Concat(ss[..k])| + j] == ss[k][j]
    decreases |ss|
  {
    var init := ss[..|ss| - 1];
    assert Concat(ss) == Concat(init) + ss[|ss| - 1];
    if k == |ss| - 1 {
      assert ss[..k] == init;
    } else {
      assert init[..k] == ss[..k];
      ConcatAt(init, k, j);
    }
  }

  /** Part `k` lies wholly inside the concatenation, after the parts before it. */
  lemma {:induction false} ConcatPartBound<T>(ss: seq<seq<T>>, k: nat)
    requires k < |ss|
    ensures |Concat(ss[..k])| + |ss[k]| <= |Concat(ss)|
    decreases |ss|
  {
    var init := ss[..|ss| - 1];
    assert Concat(ss) == Concat(init) + ss[|ss| - 1];
    if k == |ss| - 1 {
      assert ss[..k] == init;
    } else {
      assert init[..k] == ss[..k];
      ConcatPartBound(init, k);
    }
  }

  /** Concatenations of lists of equal lengths have equal lengths. */
  lemma {:induction false} ConcatLength<A, B>(ss: seq<seq<A>>, tt: seq<seq<B>>)
    requires |ss| == |tt|
    requires forall k :: 0 <= k < |ss| ==> |ss[k]| == |tt[k]|
    ensures |Concat(ss)| == |Concat(tt)|
    decreases |ss|
  {
    if ss != [] {
      ConcatLength(ss[..|ss| - 1], tt[..|tt| - 1]);
    }
  }

  /** An element of the concatenation comes from one of the parts, and every part's elements
      are in it. */
  lemma {:induction false} ConcatMembers<T>(ss: seq<seq<T>>, x: T)
    ensures x in Concat(ss) <==> exists k :: 0 <= k < |ss| && x in ss[k]
    decreases |ss|
  {
    if ss != [] {
      var init := ss[..|ss| - 1];
      ConcatMembers(init, x);
      assert Concat(ss) == Concat(init) + ss[|ss| - 1];
      if x in Concat(ss) {
        if x in Concat(init) {
          var k :| 0 <= k < |init| && x in init[k];
          assert x in ss[k];
        }
      }
      if exists k :: 0 <= k < |ss| && x in ss[k] {
        var k :| 0 <= k < |ss| && x in ss[k];
        if k < |ss| - 1 {
          assert x in init[k];
        }
      }
    }
  }

  /** The labels of concatenated row lists are the concatenated label lists. */
  lemma {:induction false} RowLabelsOfConcat(rss: seq<seq<Row>>)
    ensures RowLabels(Concat(rss)) == Concat(seq(|rss|, k requires 0 <= k < |rss| => RowLabels(rss[k])))
    decreases |rss|
  {
    var lists := seq(|rss|, k requires 0 <= k < |rss| => RowLabels(rss[k]));
    if rss != [] {
      var init := rss[..|rss| - 1];
      RowLabelsOfConcat(init);
      assert lists[..|rss| - 1] == seq(|init|, k requires 0 <= k < |init| => RowLabels(init[k]));
      assert Concat(rss) == Concat(init) + rss[|rss| - 1];
      assert RowLabels(Concat(init) + rss[|rss| - 1]) == RowLabels(Concat(init)) + RowLabels(rss[|rss| - 1]);
    }
  }

  /** Each element once, in order of first appearance. */
  function Dedup(s: seq<string>): (r: seq<string>)
    ensures Distinct(r)
    ensures forall x :: x in r <==> x in s
  {
    if s == [] then []
    else
      var d := Dedup(s[..|s| - 1]);
      assert s == s[..|s| - 1] + [s[|s| - 1]];
      if s[|s| - 1] in d then d else d + [s[|s| - 1]]
  }

  /** A sequence without repeats holds each element at most once. */
  lemma {:induction false} DistinctCount<T>(s: seq<T>, x: T)
    requires Distinct(s)
    ensures multiset(s)[x] <= 1
    decreases |s|
  {
    if s != [] {
      var init := s[..|s| - 1];
      assert s == init + [s[|s| - 1]];
      DistinctCount(init, x);
      if x == s[|s| - 1] {
        assert x !in init;
      }
    }
  }

  /** Reordering a sequence without repeats gives one without repeats. */
  lemma DistinctPermutation<T>(a: seq<T>, b: seq<T>)
    requires Distinct(a) && multiset(a) == multiset(b)
    ensures Distinct(b)
  {
    forall i, j | 0 <= i < j < |b|
      ensures b[i] != b[j]
    {
      DistinctCount(a, b[j]);
      assert b == b[..j] + [b[j]] + b[j + 1..];
      assert b[..j][i] == b[i];
    }
  }

  // ---------------------------------------------------------------------
  // Column and row lists of a sequence of tables

  function ColumnLists(ts: seq<Table>): seq<seq<string>>
  {
    seq(|ts|, k requires 0 <= k < |ts| => ts[k].columns)
  }

  function LabelLists(ts: seq<Table>): seq<seq<string>>
  {
    seq(|ts|, k requires 0 <= k < |ts| => Labels(ts[k]))
  }

  /** Every table's columns, one table after the other. */
  function AllColumns(ts: seq<Table>): seq<string>
  {
    Concat(ColumnLists(ts))
  }

  /** Every table's row labels, one table after the other. */
  function AllLabels(ts: seq<Table>): seq<string>
  {
    Concat(LabelLists(ts))
  }

  /** Where table `k`'s columns start when the tables' columns are laid side by side. */
  function ColumnOffset(ts: seq<Table>, k: nat): nat
    requires k <= |ts|
  {
    |AllColumns(ts[..k])|
  }

  /** Where table `k`'s rows start when the tables' rows are stacked. */
  function RowOffset(ts: seq<Table>, k: nat): nat
    requires k <= |ts|
  {
    |AllLabels(ts[..k])|
  }

  predicate AllShaped(ts: seq<Table>)
  {
    forall k :: 0 <= k < |ts| ==> Shaped(ts[k])
  }

  /** Table `k`'s column `j` is column ColumnOffset(ts, k) + j of all columns. */
  lemma AllColumnsAt(ts: seq<Table>, k: nat, j: nat)
    requires k < |ts| && j < |ts[k].columns|
    ensures ColumnOffset(ts, k) + j < |AllColumns(ts)|
    ensures AllColumns(ts)[ColumnOffset(ts, k) + j] == ts[k].columns[j]
  {
    assert ColumnLists(ts)[..k] == ColumnLists(ts[..k]);
    ConcatAt(ColumnLists(ts), k, j);
  }

  /** Table `k`'s columns sit at ColumnOffset(ts, k) of all columns. */
  lemma ColumnsBound(ts: seq<Table>, k: nat)
    requires k < |ts|
    ensures ColumnOffset(ts, k) + |ts[k].columns| <= |AllColumns(ts)|
  {
    assert ColumnLists(ts)[..k] == ColumnLists(ts[..k]);
    ConcatPartBound(ColumnLists(ts), k);
  }

  lemma AllColumnsMembers(ts: seq<Table>, c: string)
    ensures c in AllColumns(ts) <==> exists k :: 0 <= k < |ts| && c in ts[k].columns
  {
    ConcatMembers(ColumnLists(ts), c);
    if exists k :: 0 <= k < |ts| && c in ts[k].columns {
      var k :| 0 <= k < |ts| && c in ts[k].columns;
      assert c in ColumnLists(ts)[k];
    }
  }

  lemma AllLabelsMembers(ts: seq<Table>, l: string)
    ensures l in AllLabels(ts) <==> exists k :: 0 <= k < |ts| && l in Labels(ts[k])
  {
    ConcatMembers(LabelLists(ts), l);
    if exists k :: 0 <= k < |ts| && l in Labels(ts[k]) {
      var k :| 0 <= k < |ts| && l in Labels(ts[k]);
      assert l in LabelLists(ts)[k];
    }
  }

  /** Concatenating one-element lists lists their elements. */
  lemma {:induction false} ConcatSingletons<T>(ss: seq<seq<T>>)
    requires forall k :: 0 <= k < |ss| ==> |ss[k]| == 1
    ensures Concat(ss) == seq(|ss|, k requires 0 <= k < |ss| => ss[k][0])
    decreases |ss|
  {
    if ss != [] {
      ConcatSingletons(ss[..|ss| - 1]);
    }
  }

  /** Stacking one-row tables: the labels are the tables' own labels in order, and table
      `k`'s row is row `k`. */
  lemma OneRowEach(ts: seq<Table>)
    requires forall k :: 0 <= k < |ts| ==> |ts[k].rows| == 1
    ensures AllLabels(ts) == seq(|ts|, k requires 0 <= k < |ts| => ts[k].rows[0].name)
    ensures forall k :: 0 <= k <= |ts| ==> RowOffset(ts, k) == k
  {
    ConcatSingletons(LabelLists(ts));
    SingleRowOffsets(ts);
  }

  /** When every table has one row, table k's row is row k of the stack. */
  lemma SingleRowOffsets(ts: seq<Table>)
    requires forall k :: 0 <= k < |ts| ==> |ts[k].rows| == 1
    ensures forall k :: 0 <= k <= |ts| ==> RowOffset(ts, k) == k
  {
    forall k | 0 <= k <= |ts|
      ensures RowOffset(ts, k) == k
    {
      ConcatSingletons(LabelLists(ts[..k]));
    }
  }

  /** Stacking one-row tables: table k's cells are row k's. */
  lemma StackedSingleCell(ts: seq<Table>, t: Table, k: nat, c: string)
    requires forall k :: 0 <= k < |ts| ==> Shaped(ts[k]) && Distinct(ts[k].columns) && |ts[k].rows| == 1
    requires Stack(ts) == Ok(t) && k < |ts|
    ensures k < |t.rows| && Get(t, k, c) == Get(ts[k], 0, c)
  {
    SingleRowOffsets(ts);
    assert Get(t, RowOffset(ts, k) + 0, c) == Get(ts[k], 0, c);
  }

  /** Placing one-column tables side by side: the columns are the tables' own columns in
      order, and table `k`'s column is column `k`. */
  lemma OneColumnEach(ts: seq<Table>)
    requires forall k :: 0 <= k < |ts| ==> |ts[k].columns| == 1
    ensures AllColumns(ts) == seq(|ts|, k requires 0 <= k < |ts| => ts[k].columns[0])
    ensures forall k :: 0 <= k <= |ts| ==> ColumnOffset(ts, k) == k
  {
    ConcatSingletons(ColumnLists(ts));
    forall k | 0 <= k <= |ts|
      ensures ColumnOffset(ts, k) == k
    {
      ConcatSingletons(ColumnLists(ts[..k]));
    }
  }

  // ---------------------------------------------------------------------
  // pandas.concat(tables): stacking rows

  /** The row re-laid on the columns `to`: Missing under every column the row did not have. */
  function Realign(row: Row, from: seq<string>, to: seq<string>): (r: Row)
    requires |row.cells| == |from|
    ensures r.name == row.name && |r.cells| == |to|
  {
    Row(row.name, seq(|to|, j requires 0 <= j < |to| =>
      if to[j] in from then row.cells[IndexOf(from, to[j])] else Missing))
  }

  function RealignAll(t: Table, to: seq<string>): (r: seq<Row>)
    requires Shaped(t)
    ensures |r| == |t.rows|
  {
    seq(|t.rows|, i requires 0 <= i < |t.rows| => Realign(t.rows[i], t.columns, to))
  }

  function RealignedLists(ts: seq<Table>, to: seq<string>): seq<seq<Row>>
    requires AllShaped(ts)
  {
    seq(|ts|, k requires 0 <= k < |ts| => RealignAll(ts[k], to))
  }

  /** `pandas.concat(ts)`: the rows of all tables one after the other, on the union of their
      columns (each once; pandas' own column order is not pinned down, only the set). A cell
      keeps its value, and is Missing under the columns its table lacked. */
  function Stack(ts: seq<Table>): (r: Result<Table>)
    requires forall k :: 0 <= k < |ts| ==> Shaped(ts[k]) && Distinct(ts[k].columns)
    ensures r.Ok? <==> |ts| > 0
    ensures r.Err? ==> r.error == NothingToConcatenate
    ensures r.Ok? ==> Shaped(r.value) && Distinct(r.value.columns)
    ensures r.Ok? ==> forall c :: c in r.value.columns <==> c in AllColumns(ts)
    ensures r.Ok? ==> Labels(r.value) == AllLabels(ts)
    ensures r.Ok? ==> forall k :: 0 <= k < |ts| ==> RowOffset(ts, k) + |ts[k].rows| <= |r.value.rows|
    ensures r.Ok? ==> forall k, i, c :: 0 <= k < |ts| && 0 <= i < |ts[k].rows| ==>
      Get(r.value, RowOffset(ts, k) + i, c) == Get(ts[k], i, c)
  {
    if ts == [] then Err(NothingToConcatenate)
    else
      var columns := Dedup(AllColumns(ts));
      var lists := RealignedLists(ts, columns);
      var t := Table(columns, Concat(lists));
      StackProperties(ts, columns, t);
      Ok(t)
  }

  lemma RealignAllLabels(t: Table, to: seq<string>)
    requires Shaped(t)
    ensures RowLabels(RealignAll(t, to)) == Labels(t)
  {
  }

  /** Table `k`'s rows sit at RowOffset(ts, k) of the stacked rows. */
  lemma StackBound(ts: seq<Table>, columns: seq<string>, k: nat)
    requires AllShaped(ts) && k < |ts|
    ensures |Concat(RealignedLists(ts, columns)[..k])| == RowOffset(ts, k)
    ensures RowOffset(ts, k) + |ts[k].rows| <= |Concat(RealignedLists(ts, columns))|
  {
    var lists := RealignedLists(ts, columns);
    assert LabelLists(ts[..k]) == LabelLists(ts)[..k];
    ConcatLength(lists[..k], LabelLists(ts[..k]));
    ConcatPartBound(lists, k);
  }

  lemma StackCell(ts: seq<Table>, columns: seq<string>, t: Table, k: nat, i: nat, c: string)
    requires AllShaped(ts)
    requires forall c :: c in columns <==> c in AllColumns(ts)
    requires t == Table(columns, Concat(RealignedLists(ts, columns)))
    requires Shaped(t)
    requires k < |ts| && i < |ts[k].rows|
    ensures RowOffset(ts, k) + i < |t.rows| && Get(t, RowOffset(ts, k) + i, c) == Get(ts[k], i, c)
  {
    var lists := RealignedLists(ts, columns);
    ConcatAt(lists, k, i);
    StackBound(ts, columns, k);
    var n := RowOffset(ts, k) + i;
    assert t.rows[n] == Realign(ts[k].rows[i], ts[k].columns, columns);
    if c in ts[k].columns {
      AllColumnsMembers(ts, c);
    }
  }

  lemma StackProperties(ts: seq<Table>, columns: seq<string>, t: Table)
    requires AllShaped(ts)
    requires forall c :: c in columns <==> c in AllColumns(ts)
    requires t == Table(columns, Concat(RealignedLists(ts, columns)))
    ensures Shaped(t)
    ensures Labels(t) == AllLabels(ts)
    ensures forall k :: 0 <= k < |ts| ==> RowOffset(ts, k) + |ts[k].rows| <= |t.rows|
    ensures forall k, i, c :: 0 <= k < |ts| && 0 <= i < |ts[k].rows| ==>
      Get(t, RowOffset(ts, k) + i, c) == Get(ts[k], i, c)
  {
    var lists := RealignedLists(ts, columns);
    RowLabelsOfConcat(lists);
    forall k | 0 <= k < |ts|
      ensures RowLabels(lists[k]) == LabelLists(ts)[k]
    {
      RealignAllLabels(ts[k], columns);
    }
    assert seq(|lists|, k requires 0 <= k < |lists| => RowLabels(lists[k])) == LabelLists(ts);
    forall i | 0 <= i < |t.rows|
      ensures |t.rows[i].cells| == |columns|
    {
      var row := t.rows[i];
      assert row in Concat(lists);
      ConcatMembers(lists, row);
    }
    forall k | 0 <= k < |ts|
      ensures RowOffset(ts, k) + |ts[k].rows| <= |t.rows|
    {
      StackBound(ts, columns, k);
    }
    forall k, i, c | 0 <= k < |ts| && 0 <= i < |ts[k].rows|
      ensures Get(t, RowOffset(ts, k) + i, c) == Get(ts[k], i, c)
    {
      StackCell(ts, columns, t, k, i, c);
    }
  }

  // ---------------------------------------------------------------------
  // pandas.concat(tables, axis=1): side by side, outer join on the row labels

  /** The cells the table contributes to the joined row labelled `l`. */
  function RowCells(t: Table, l: string): (r: seq<Value>)
    requires Shaped(t)
    ensures |r| == |t.columns|
    ensures forall j :: 0 <= j < |r| ==> r[j] == CellFor(t, l, j)
  {
    if l in Labels(t) then t.rows[IndexOf(Labels(t), l)].cells
    else seq(|t.columns|, _ => Missing)
  }

  function CellLists(ts: seq<Table>, l: string): seq<seq<Value>>
    requires AllShaped(ts)
  {
    seq(|ts|, k requires 0 <= k < |ts| => RowCells(ts[k], l))
  }

  /** `pandas.concat(ts, axis=1)`: the columns of all tables one after the other, on the
      union of their row labels (each once; whether pandas sorts them is not pinned down, only
      the set). The cell of row `l` under table `k`'s column `j` is that table's cell, or
      Missing when table `k` has no row `l`. A table with a repeated row label cannot be
      reindexed, and an empty list cannot be concatenated. */
  function SideBySide(ts: seq<Table>): (r: Result<Table>)
    requires AllShaped(ts)
    ensures |ts| == 0 ==> r == Err(NothingToConcatenate)
    ensures r.Ok? <==> |ts| > 0 && forall k :: 0 <= k < |ts| ==> Distinct(Labels(ts[k]))
    ensures r.Err? && |ts| > 0 ==> r.error == DuplicateLabels
    ensures r.Ok? ==> Shaped(r.value) && r.value.columns == AllColumns(ts)
    ensures r.Ok? ==> Distinct(Labels(r.value))
    ensures r.Ok? ==> forall l :: l in Labels(r.value) <==> l in AllLabels(ts)
    ensures r.Ok? ==> forall k :: 0 <= k < |ts| ==> ColumnOffset(ts, k) + |ts[k].columns| <= |r.value.columns|
    ensures r.Ok? ==> forall i, k, j :: 0 <= i < |r.value.rows| && 0 <= k < |ts| && 0 <= j < |ts[k].columns| ==>
      r.value.rows[i].cells[ColumnOffset(ts, k) + j] == CellFor(ts[k], r.value.rows[i].name, j)
  {
    if ts == [] then Err(NothingToConcatenate)
    else if exists k :: 0 <= k < |ts| && !Distinct(Labels(ts[k])) then Err(DuplicateLabels)
    else
      var labels := Dedup(AllLabels(ts));
      var t := Table(AllColumns(ts), seq(|labels|, i requires 0 <= i < |labels| =>
                                           Row(labels[i], Concat(CellLists(ts, labels[i])))));
      SideBySideProperties(ts, labels, t);
      Ok(t)
  }

  lemma SideBySideCell(ts: seq<Table>, labels: seq<string>, t: Table, i: nat, k: nat, j: nat)
    requires AllShaped(ts)
    requires t == Table(AllColumns(ts), seq(|labels|, i requires 0 <= i < |labels| =>
                                              Row(labels[i], Concat(CellLists(ts, labels[i])))))
    requires Shaped(t)
    requires i < |t.rows| && k < |ts| && j < |ts[k].columns|
    ensures ColumnOffset(ts, k) + j < |t.columns|
    ensures t.rows[i].cells[ColumnOffset(ts, k) + j] == CellFor(ts[k], t.rows[i].name, j)
  {
    var lists := CellLists(ts, labels[i]);
    assert t.rows[i].cells == Concat(lists);
    ConcatAt(lists, k, j);
    assert ColumnLists(ts)[..k] == ColumnLists(ts[..k]);
    ConcatLength(lists[..k], ColumnLists(ts[..k]));
    AllColumnsAt(ts, k, j);
  }

  lemma SideBySideProperties(ts: seq<Table>, labels: seq<string>, t: Table)
    requires AllShaped(ts)
    requires t == Table(AllColumns(ts), seq(|labels|, i requires 0 <= i < |labels| =>
                                              Row(labels[i], Concat(CellLists(ts, labels[i])))))
    ensures Shaped(t) && Labels(t) == labels
    ensures forall k :: 0 <= k < |ts| ==> ColumnOffset(ts, k) + |ts[k].columns| <= |t.columns|
    ensures forall i, k, j :: 0 <= i < |t.rows| && 0 <= k < |ts| && 0 <= j < |ts[k].columns| ==>
      t.rows[i].cells[ColumnOffset(ts, k) + j] == CellFor(ts[k], t.rows[i].name, j)
  {
    forall i | 0 <= i < |t.rows|
      ensures |t.rows[i].cells| == |t.columns|
    {
      ConcatLength(CellLists(ts, labels[i]), ColumnLists(ts));
    }
    forall k | 0 <= k < |ts|
      ensures ColumnOffset(ts, k) + |ts[k].columns| <= |t.columns|
    {
      ColumnsBound(ts, k);
    }
    forall i, k, j | 0 <= i < |t.rows| && 0 <= k < |ts| && 0 <= j < |ts[k].columns|
      ensures t.rows[i].cells[ColumnOffset(ts, k) + j] == CellFor(ts[k], t.rows[i].name, j)
    {
      SideBySideCell(ts, labels, t, i, k, j);
    }
  }

  // ---------------------------------------------------------------------
  // One-column tables read from (label, value) lines, side by side

  /** The labels of the lines, in order. */
  function EntryLabels(entries: seq<(string, Value)>): (r: seq<string>)
    ensures |r| == |entries|
    ensures forall i :: 0 <= i < |entries| ==> r[i] == entries[i].0
  {
    seq(|entries|, i requires 0 <= i < |entries| => entries[i].0)
  }

  /** The value on the line labelled `l`: the first such line's, or Missing when no line has
      that label. */
  function ValueOf(entries: seq<(string, Value)>, l: string): Value
  {
    if l in EntryLabels(entries) then entries[IndexOf(EntryLabels(entries), l)].1 else Missing
  }

  /** The one-column table headed `name` with a row per line, labelled by the line's label;
      the cell in the row labelled `l` is the value on that line. */
  function Column(name: string, entries: seq<(string, Value)>): (t: Table)
    ensures Shaped(t) && t.columns == [name] && Labels(t) == EntryLabels(entries)
    ensures forall l :: CellFor(t, l, 0) == ValueOf(entries, l)
  {
    var t := Table([name], seq(|entries|, i requires 0 <= i < |entries| => Row(entries[i].0, [entries[i].1])));
    assert Labels(t) == EntryLabels(entries);
    forall l ensures CellFor(t, l, 0) == ValueOf(entries, l) {
      if l in Labels(t) {
        var i := IndexOf(Labels(t), l);
        assert t.rows[i].cells[0] == entries[i].1;
      }
    }
    t
  }

  /** The one-column tables of several named line lists. */
  function Columns(names: seq<string>, entries: seq<seq<(string, Value)>>): (ts: seq<Table>)
    requires |names| == |entries|
    ensures |ts| == |names| && AllShaped(ts)
    ensures forall k :: 0 <= k < |ts| ==> ts[k] == Column(names[k], entries[k])
  {
    seq(|names|, k requires 0 <= k < |names| => Column(names[k], entries[k]))
  }

  /** One-column tables side by side: a column per table, in order, headed by its name; a row
      per label of any table, each once; under table `k`'s column, the value on the line with
      the row's label in table `k`, or Missing when it has none. */
  lemma SideBySideColumns(names: seq<string>, entries: seq<seq<(string, Value)>>, t: Table)
    requires |names| == |entries|
    requires SideBySide(Columns(names, entries)) == Ok(t)
    ensures t.columns == names
    ensures Distinct(Labels(t))
    ensures forall l :: l in Labels(t) <==> exists k :: 0 <= k < |entries| && l in EntryLabels(entries[k])
    ensures forall i, k :: 0 <= i < |t.rows| && 0 <= k < |names| ==>
      k < |t.rows[i].cells| && t.rows[i].cells[k] == ValueOf(entries[k], t.rows[i].name)
  {
    var ts := Columns(names, entries);
    OneColumnEach(ts);
    assert t.columns == names;
    forall l ensures l in Labels(t) <==> exists k :: 0 <= k < |entries| && l in EntryLabels(entries[k]) {
      AllLabelsMembers(ts, l);
    }
    forall i, k | 0 <= i < |t.rows| && 0 <= k < |names|
      ensures k < |t.rows[i].cells| && t.rows[i].cells[k] == ValueOf(entries[k], t.rows[i].name)
    {
      assert t.rows[i].cells[ColumnOffset(ts, k) + 0] == CellFor(ts[k], t.rows[i].name, 0);
    }
  }

  /** The same merge turned over: a row per one-column table, labelled by its name; a column
      per label of any list; and in row `k`, the value list `k` gives the column's label. */
  lemma SideBySideColumnsTransposed(names: seq<string>, entries: seq<seq<(string, Value)>>, t: Table)
    requires |names| == |entries|
    requires SideBySide(Columns(names, entries)) == Ok(t)
    ensures Shaped(t)
    ensures Labels(Transpose(t)) == names
    ensures Distinct(Transpose(t).columns)
    ensures forall l :: l in Transpose(t).columns <==> exists k :: 0 <= k < |entries| && l in EntryLabels(entries[k])
    ensures forall k, j :: 0 <= k < |names| && 0 <= j < |Transpose(t).columns| ==>
      Transpose(t).rows[k].cells[j] == ValueOf(entries[k], Transpose(t).columns[j])
  {
    SideBySideColumns(names, entries, t);
    var r := Transpose(t);
    forall k, j | 0 <= k < |names| && 0 <= j < |r.columns|
      ensures r.rows[k].cells[j] == ValueOf(entries[k], r.columns[j])
    {
      assert r.rows[k].cells[j] == t.rows[j].cells[k];
    }
  }

  /** Side by side, the one-column tables succeed exactly when there is at least one and no
      line list repeats a label. */
  lemma SideBySideColumnsSucceeds(names: seq<string>, entries: seq<seq<(string, Value)>>)
    requires |names| == |entries|
    ensures SideBySide(Columns(names, entries)).Ok? <==>
      |names| > 0 && forall k :: 0 <= k < |entries| ==> Distinct(EntryLabels(entries[k]))
  {
  }

  // ---------------------------------------------------------------------
  // Column selection and transposition

  /** `t[cols]`: the listed columns, in the listed order. */
  function Select(t: Table, cols: seq<string>): (r: Table)
    requires Shaped(t)
    requires forall c :: c in cols ==> c in t.columns
    ensures Shaped(r) && r.columns == cols && Labels(r) == Labels(t)
    ensures forall i, j :: 0 <= i < |t.rows| && 0 <= j < |cols| ==> r.rows[i].cells[j] == Get(t, i, cols[j])
  {
    var r := Table(cols, RealignAll(t, cols));
    assert Labels(r) == Labels(t);
    r
  }

  /** `t.transpose()`: rows become columns and columns rows. */
  function Transpose(t: Table): (r: Table)
    requires Shaped(t)
    ensures Shaped(r)
    ensures r.columns == Labels(t) && Labels(r) == t.columns
    ensures forall i, j :: 0 <= i < |t.rows| && 0 <= j < |t.columns| ==> r.rows[j].cells[i] == t.rows[i].cells[j]
  {
    var r := Table(Labels(t), seq(|t.columns|, j requires 0 <= j < |t.columns| =>
                     Row(t.columns[j], seq(|t.rows|, i requires 0 <= i < |t.rows| => t.rows[i].cells[j]))));
    assert Labels(r) == t.columns;
    r
  }

  /** Transposing twice gives the table back. */
  lemma TransposeTwice(t: Table)
    requires Shaped(t)
    ensures Transpose(Transpose(t)) == t
  {
    var u := Transpose(Transpose(t));
    assert u.columns == t.columns;
    forall i | 0 <= i < |t.rows|
      ensures u.rows[i] == t.rows[i]
    {
      assert u.rows[i].cells == t.rows[i].cells;
    }
    assert u.rows == t.rows;
  }
}
