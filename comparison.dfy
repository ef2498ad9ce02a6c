/**
  The results table of the PDF report (analyza.py:245-293) and of the text briefing:
  for every selected numeric column, the proband's value, the reference value and
  their difference. The reference is the group's mean of the column, or the value in
  a historical snapshot of the proband, where a missing ratio is recomputed from its
  raw inputs and a metric the snapshot cannot supply is dropped.
*/
module Comparison {
  import opened Basics
  import opened Cells
  import opened Catalog
  import opened Frames
  import opened Statistics

  /** What the proband is compared with: the mean of the frame, or one earlier measurement. */
  datatype Basis = GroupAverage | Historical(snapshot: map<string, Cell>)

  /** One line of the results table. */
  datatype Row = Row(metric: string, current: Cell, reference: Cell, difference: Cell)

  /** The columns the table considers: selected, numeric, and not identification data. */
  predicate Listed(t: Table, selected: seq<string>, c: string)
  {
    c !in DEFAULT_COLUMNS && c in selected && Numeric(t, c)
  }

  /**
    `comparison_data.get(col)`, with the ratio recomputed from the snapshot's raw
    columns when the snapshot has no ratio entry (analyza.py:273-279): Ok(None) when
    the snapshot supplies no value, Err when the recomputation divides text.
  */
  function HistoricalValue(snapshot: map<string, Cell>, col: string): (r: Result<Option<Cell>>)
    ensures col in snapshot ==> r == Ok(Some(snapshot[col]))
    ensures r == Ok(None) <==> (col !in snapshot && (RatioNamed(col).None? ||
      RatioNamed(col).value.numerator !in snapshot || RatioNamed(col).value.denominator !in snapshot))
    ensures r.Ok? && r.value.Some? && col !in snapshot ==>
      Divide(snapshot[RatioNamed(col).value.numerator], snapshot[RatioNamed(col).value.denominator]) == Some(r.value.value)
    ensures r.Err? <==> col !in snapshot && RatioNamed(col).Some? && var d := RatioNamed(col).value;
      d.numerator in snapshot && d.denominator in snapshot && Divide(snapshot[d.numerator], snapshot[d.denominator]).None?
    ensures r.Err? ==> r.error == TypeMismatch(col)
  {
    if col in snapshot then Ok(Some(snapshot[col]))
    else match RatioNamed(col)
      case None => Ok(None)
      case Some(d) =>
        if d.numerator in snapshot && d.denominator in snapshot then
          match Divide(snapshot[d.numerator], snapshot[d.denominator])
          case None => Err(TypeMismatch(col))
          case Some(v) => Ok(Some(v))
        else Ok(None)
  }

  /**
    A ratio recomputed from the snapshot's raw values is the value the snapshot would
    have held had the ratio been derived when it was taken.
  */
  lemma RecomputedRatioAgrees(snapshot: map<string, Cell>, def: RatioDef, v: Cell)
    requires RatioNamed(def.name) == Some(def) && def.name !in snapshot
    requires def.numerator in snapshot && def.denominator in snapshot
    requires Divide(snapshot[def.numerator], snapshot[def.denominator]) == Some(v)
    ensures HistoricalValue(snapshot, def.name) == HistoricalValue(snapshot[def.name := v], def.name) == Ok(Some(v))
  {
  }

  /**
    The row of one column (the loop body of analyza.py:249-254 and 268-283): Ok(None)
    when a historical snapshot cannot supply the reference, Err when pandas would raise.
  */
  function RowFor(t: Table, row: nat, col: string, basis: Basis): Result<Option<Row>>
    requires col in t.data && row < |t.data[col]|
  {
    var cur := t.data[col][row];
    match basis
    case GroupAverage =>
      (match Mean(t.data[col])
       case None => Err(TypeMismatch(col))
       case Some(m) =>
         match Subtract(cur, m)
         case None => Err(TypeMismatch(col))
         case Some(d) => Ok(Some(Row(col, cur, m, d))))
    case Historical(snapshot) =>
      match HistoricalValue(snapshot, col)
      case Err(e) => Err(e)
      case Ok(None) => Ok(None)
      case Ok(Some(h)) =>
        match Subtract(cur, h)
        case None => Err(TypeMismatch(col))
        case Some(d) => Ok(Some(Row(col, cur, h, d)))
  }

  /**
    A row holds its column's name, the proband's value and a difference that is
    current minus reference; against the group the reference is the column's mean and
    a numeric column always has a row; against a snapshot the row is missing exactly
    when the snapshot supplies nothing, and a numeric column raises exactly when the
    recomputation or the subtraction meets text.
  */
  lemma RowForProperties(t: Table, row: nat, col: string, basis: Basis)
    requires col in t.data && row < |t.data[col]|
    ensures var r := RowFor(t, row, col, basis);
      r.Ok? && r.value.Some? ==> var x := r.value.value;
        x.metric == col && x.current == t.data[col][row] && Subtract(x.current, x.reference) == Some(x.difference)
    ensures var r := RowFor(t, row, col, basis);
      basis.GroupAverage? && Numeric(t, col) ==> r.Ok? && r.value.Some? && Mean(t.data[col]) == Some(r.value.value.reference)
    ensures var r := RowFor(t, row, col, basis);
      basis.Historical? ==> (r == Ok(None) <==> HistoricalValue(basis.snapshot, col) == Ok(None))
    ensures var r := RowFor(t, row, col, basis);
      basis.Historical? && r.Ok? && r.value.Some? ==> HistoricalValue(basis.snapshot, col) == Ok(Some(r.value.value.reference))
    ensures var r := RowFor(t, row, col, basis);
      basis.Historical? && Numeric(t, col) ==> (r.Err? <==> (HistoricalValue(basis.snapshot, col).Err? ||
        (HistoricalValue(basis.snapshot, col).Ok? && HistoricalValue(basis.snapshot, col).value.Some? && !IsNumeric(HistoricalValue(basis.snapshot, col).value.value))))
  {
  }

  /** The column gets a row in the table. */
  predicate Shown(t: Table, row: nat, selected: seq<string>, basis: Basis, c: string)
  {
    Listed(t, selected, c) && row < |t.data[c]| && RowFor(t, row, c, basis).Ok? && RowFor(t, row, c, basis).value.Some?
  }

  /** No listed column makes pandas raise. */
  predicate Computable(t: Table, row: nat, selected: seq<string>, basis: Basis, cols: seq<string>)
  {
    forall c :: c in cols && Listed(t, selected, c) && row < |t.data[c]| ==> RowFor(t, row, c, basis).Ok?
  }

  /** The metric of each row, in order. */
  function Metrics(rows: seq<Row>): (r: seq<string>)
    ensures |r| == |rows| && forall k :: 0 <= k < |rows| ==> r[k] == rows[k].metric
  {
    seq(|rows|, k requires 0 <= k < |rows| => rows[k].metric)
  }

  /**
    The rows of the columns `cols`, in their order: exactly the shown ones, each the
    row of its own column; the first column that raises makes the whole table fail.
  */
  function ComparisonRows(t: Table, row: nat, selected: seq<string>, basis: Basis, cols: seq<string>): Result<seq<Row>>
    requires WellFormed(t) && row < t.height
  {
    if cols == [] then Ok([])
    else
      match ComparisonRows(t, row, selected, basis, cols[..|cols| - 1])
      case Err(e) => Err(e)
      case Ok(rows) =>
        var c := cols[|cols| - 1];
        if !Listed(t, selected, c) then Ok(rows)
        else match RowFor(t, row, c, basis)
          case Err(e) => Err(e)
          case Ok(None) => Ok(rows)
          case Ok(Some(x)) => Ok(rows + [x])
  }

  /** The table fails exactly when a listed column raises. */
  lemma {:induction false} ComparisonRowsFail(t: Table, row: nat, selected: seq<string>, basis: Basis, cols: seq<string>)
    requires WellFormed(t) && row < t.height
    ensures ComparisonRows(t, row, selected, basis, cols).Ok? <==> Computable(t, row, selected, basis, cols)
  {
    if cols != [] {
      var init := cols[..|cols| - 1];
      ColumnsSnoc(cols);
      ComparisonRowsFail(t, row, selected, basis, init);
    }
  }

  /** The rows of a table that does not fail are those of the shown columns, in column order. */
  lemma {:induction false} ComparisonRowsMetrics(t: Table, row: nat, selected: seq<string>, basis: Basis, cols: seq<string>)
    requires WellFormed(t) && row < t.height
    ensures ComparisonRows(t, row, selected, basis, cols).Ok? ==>
      Metrics(ComparisonRows(t, row, selected, basis, cols).value) == Filter(cols, c => Shown(t, row, selected, basis, c))
  {
    if cols != [] {
      var init := cols[..|cols| - 1];
      var c := cols[|cols| - 1];
      ComparisonRowsMetrics(t, row, selected, basis, init);
      var shown := c => Shown(t, row, selected, basis, c);
      assert Filter(cols, shown) == Filter(init, shown) + (if shown(c) then [c] else []);
      var r := ComparisonRows(t, row, selected, basis, init);
      if r.Ok? && Shown(t, row, selected, basis, c) {
        var x := RowFor(t, row, c, basis).value.value;
        RowForProperties(t, row, c, basis);
        MetricsSnoc(r.value, x);
      }
    }
  }

  /** One more row adds its metric. */
  lemma MetricsSnoc(rows: seq<Row>, x: Row)
    ensures Metrics(rows + [x]) == Metrics(rows) + [x.metric]
  {
  }

  /** Each row of a table that does not fail is the row of its own column. */
  lemma {:induction false} ComparisonRowsEach(t: Table, row: nat, selected: seq<string>, basis: Basis, cols: seq<string>)
    requires WellFormed(t) && row < t.height
    ensures ComparisonRows(t, row, selected, basis, cols).Ok? ==>
      forall k :: 0 <= k < |ComparisonRows(t, row, selected, basis, cols).value| ==>
        ComparisonRows(t, row, selected, basis, cols).value[k].metric in t.data &&
        RowFor(t, row, ComparisonRows(t, row, selected, basis, cols).value[k].metric, basis) == Ok(Some(ComparisonRows(t, row, selected, basis, cols).value[k]))
  {
    if cols != [] {
      var init := cols[..|cols| - 1];
      ComparisonRowsEach(t, row, selected, basis, init);
    }
  }

  /** The columns are those before the last, and the last. */
  lemma ColumnsSnoc(cols: seq<string>)
    requires cols != []
    ensures forall x :: x in cols <==> x in cols[..|cols| - 1] || x == cols[|cols| - 1]
  {
    assert cols == cols[..|cols| - 1] + [cols[|cols| - 1]];
  }

  /** Once a prefix of the columns raises, so does the whole table, with the same error. */
  lemma {:induction false} ErrorPersists(t: Table, row: nat, selected: seq<string>, basis: Basis, cols: seq<string>, n: nat)
    requires WellFormed(t) && row < t.height && n <= |cols|
    requires ComparisonRows(t, row, selected, basis, cols[..n]).Err?
    ensures ComparisonRows(t, row, selected, basis, cols) == ComparisonRows(t, row, selected, basis, cols[..n])
  {
    if n < |cols| {
      var init := cols[..|cols| - 1];
      assert init[..n] == cols[..n];
      ErrorPersists(t, row, selected, basis, init, n);
    } else {
      assert cols[..n] == cols;
    }
  }

  /**
    Against the group average, after `fillna(0)`, every listed column gets a row whose
    reference is the column's mean and whose difference is current minus mean.
  */
  lemma GroupRowsComplete(t: Table, row: nat, selected: seq<string>)
    requires WellFormed(t) && NoMissing(t) && row < t.height
    ensures ComparisonRows(t, row, selected, GroupAverage, t.columns).Ok?
    ensures var rows := ComparisonRows(t, row, selected, GroupAverage, t.columns).value;
      Metrics(rows) == Filter(t.columns, c => Listed(t, selected, c)) &&
      forall k :: 0 <= k < |rows| ==> (rows[k].current.Num? && rows[k].reference.Num? && rows[k].difference.Num? &&
        rows[k].difference.x + rows[k].reference.x == rows[k].current.x)
  {
    var p := c => Shown(t, row, selected, GroupAverage, c);
    var q := c => Listed(t, selected, c);
    forall c | c in t.columns ensures p(c) == q(c) {
      if Listed(t, selected, c) {
        assert RowFor(t, row, c, GroupAverage).Ok?;
      }
    }
    FilterCongruent(t.columns, p, q);
    ComparisonRowsFail(t, row, selected, GroupAverage, t.columns);
    ComparisonRowsMetrics(t, row, selected, GroupAverage, t.columns);
    ComparisonRowsEach(t, row, selected, GroupAverage, t.columns);
    var rows := ComparisonRows(t, row, selected, GroupAverage, t.columns).value;
    forall k | 0 <= k < |rows| ensures rows[k].current.Num? && rows[k].reference.Num? && rows[k].difference.Num? && rows[k].difference.x + rows[k].reference.x == rows[k].current.x {
      var c := rows[k].metric;
      assert c in Metrics(rows);
      var cells := t.data[c];
      assert forall i :: 0 <= i < |cells| ==> cells[i].Num?;
      assert Numbers(cells) != [];
    }
  }

  /**
    Against a snapshot, a ratio the snapshot lacks and cannot recompute (one raw input
    missing) has no row.
  */
  lemma HistoricalRatioDropped(t: Table, row: nat, selected: seq<string>, snapshot: map<string, Cell>, def: RatioDef)
    requires WellFormed(t) && row < t.height
    requires ComparisonRows(t, row, selected, Historical(snapshot), t.columns).Ok?
    requires RatioNamed(def.name) == Some(def) && def.name !in snapshot
    requires def.numerator !in snapshot || def.denominator !in snapshot
    ensures def.name !in Metrics(ComparisonRows(t, row, selected, Historical(snapshot), t.columns).value)
  {
    ComparisonRowsMetrics(t, row, selected, Historical(snapshot), t.columns);
  }

  /**
    Against a snapshot, the table lists exactly the listed columns the snapshot holds
    (or can recompute) a numeric value for.
  */
  lemma HistoricalRowsShown(t: Table, row: nat, selected: seq<string>, snapshot: map<string, Cell>, c: string)
    requires WellFormed(t) && row < t.height
    requires ComparisonRows(t, row, selected, Historical(snapshot), t.columns).Ok?
    ensures c in Metrics(ComparisonRows(t, row, selected, Historical(snapshot), t.columns).value) <==>
      Listed(t, selected, c) && HistoricalValue(snapshot, c).Ok? && HistoricalValue(snapshot, c).value.Some?
  {
    ComparisonRowsFail(t, row, selected, Historical(snapshot), t.columns);
    ComparisonRowsMetrics(t, row, selected, Historical(snapshot), t.columns);
    if Listed(t, selected, c) && HistoricalValue(snapshot, c).Ok? && HistoricalValue(snapshot, c).value.Some? {
      assert c in t.columns;
      assert RowFor(t, row, c, Historical(snapshot)).Ok?;
    }
  }

  /** The header row: the reference column is "Průměr" for the group, "Historické" for a snapshot. */
  function ComparisonHeader(basis: Basis): seq<string>
  {
    ["Parametr", "Aktuální", if basis.GroupAverage? then "Průměr" else "Historické", "Rozdíl"]
  }

  /** A row as the table prints it: the metric, then the three values through format_val. */
  function FormatRow(x: Row): seq<string>
  {
    [x.metric, FormatVal(x.current), FormatVal(x.reference), FormatVal(x.difference)]
  }

  /** One printed line per row, in row order. */
  function FormatRows(rows: seq<Row>): (r: seq<seq<string>>)
    ensures |r| == |rows| && forall k :: 0 <= k < |rows| ==> r[k] == FormatRow(rows[k])
  {
    if rows == [] then [] else FormatRows(rows[..|rows| - 1]) + [FormatRow(rows[|rows| - 1])]
  }

  /** The printed table: the header, then one line per row. */
  function ComparisonTable(basis: Basis, rows: seq<Row>): (r: seq<seq<string>>)
    ensures |r| == |rows| + 1 && r[0] == ComparisonHeader(basis)
  {
    [ComparisonHeader(basis)] + FormatRows(rows)
  }

  /** Extending the columns by one column adds at most that column's row. */
  lemma RowsStep(t: Table, row: nat, selected: seq<string>, basis: Basis, cols: seq<string>, i: nat, rows: seq<Row>)
    requires WellFormed(t) && row < t.height && i < |cols|
    requires ComparisonRows(t, row, selected, basis, cols[..i]) == Ok(rows)
    ensures !Listed(t, selected, cols[i]) ==> ComparisonRows(t, row, selected, basis, cols[..i + 1]) == Ok(rows)
    ensures Listed(t, selected, cols[i]) && RowFor(t, row, cols[i], basis).Err? ==>
      ComparisonRows(t, row, selected, basis, cols[..i + 1]) == Err(RowFor(t, row, cols[i], basis).error)
    ensures Listed(t, selected, cols[i]) && RowFor(t, row, cols[i], basis) == Ok(None) ==>
      ComparisonRows(t, row, selected, basis, cols[..i + 1]) == Ok(rows)
    ensures Listed(t, selected, cols[i]) && RowFor(t, row, cols[i], basis).Ok? && RowFor(t, row, cols[i], basis).value.Some? ==>
      ComparisonRows(t, row, selected, basis, cols[..i + 1]) == Ok(rows + [RowFor(t, row, cols[i], basis).value.value])
  {
    assert cols[..i + 1][..i] == cols[..i];
  }

  /** Printing one more row appends one more line. */
  lemma TableAppend(basis: Basis, rows: seq<Row>, x: Row, table: seq<seq<string>>)
    requires table == ComparisonTable(basis, rows)
    ensures table + [FormatRow(x)] == ComparisonTable(basis, rows + [x])
  {
    assert (rows + [x])[..|rows|] == rows;
  }

  /**
    `data_table` of analyza.py:245-293, built column by column in frame order: the
    header and the rows ComparisonRows gives, or the error of the first column that
    raises.
  */
  method BuildComparisonTable(t: Table, row: nat, selected: seq<string>, basis: Basis) returns (r: Result<seq<seq<string>>>)
    requires WellFormed(t) && row < t.height
    ensures ComparisonRows(t, row, selected, basis, t.columns).Ok? ==>
      r == Ok(ComparisonTable(basis, ComparisonRows(t, row, selected, basis, t.columns).value))
    ensures ComparisonRows(t, row, selected, basis, t.columns).Err? ==>
      r == Err(ComparisonRows(t, row, selected, basis, t.columns).error)
  {
    var table := [ComparisonHeader(basis)];
    ghost var rows: seq<Row> := [];
    var i := 0;
    while i < |t.columns|
      invariant 0 <= i <= |t.columns|
      invariant ComparisonRows(t, row, selected, basis, t.columns[..i]) == Ok(rows)
      invariant table == ComparisonTable(basis, rows)
    {
      var c := t.columns[i];
      RowsStep(t, row, selected, basis, t.columns, i, rows);
      if Listed(t, selected, c) {
        var x := RowFor(t, row, c, basis);
        if x.Err? {
          ErrorPersists(t, row, selected, basis, t.columns, i + 1);
          return Err(x.error);
        }
        if x.value.Some? {
          TableAppend(basis, rows, x.value.value, table);
          table := table + [FormatRow(x.value.value)];
          rows := rows + [x.value.value];
        }
      }
      i := i + 1;
    }
    assert t.columns[..i] == t.columns;
    r := Ok(table);
  }
}
