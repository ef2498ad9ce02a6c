/**
  The common front of generuj_analyzu, generuj_word_report and priprav_podklad
  (analyza.py:190-213, 425-434 and 583-603): take a copy of the table (or the sheet
  load_data reads), clean up the headers, choose the columns, derive the rotation
  ratios where the output does, zero-fill, and find the proband's row.
*/
module Front {
  import opened Basics
  import opened Cells
  import opened Catalog
  import opened Frames
  import opened Derivation

  /** The three outputs: the PDF report, the Word report and the text briefing. */
  datatype Output = PdfReport | WordReport | Briefing

  /** Where the measurements come from: a table handed over (`data_df`), or the sheet load_data reads. */
  datatype Source = Given(table: Table) | Sheet(table: Table)

  /** The zero-filled working table, the proband's row in it, and the final column selection. */
  datatype Prepared = Prepared(table: Table, row: nat, selected: seq<string>)

  /** `data_df.copy()` or `load_data(file_path)`. */
  function Loaded(source: Source): (r: Result<Table>)
    requires WellFormed(source.table)
    ensures r.Ok? ==> WellFormed(r.value)
  {
    match source
    case Given(t) => Ok(t)
    case Sheet(sheet) => LoadData(sheet)
  }

  /** `[col for col in df.columns if col not in default_columns]`: the selection when none is given. */
  function DefaultSelection(columns: seq<string>): (r: seq<string>)
    ensures forall c :: c in r <==> c in columns && c !in DEFAULT_COLUMNS
    ensures forall c :: Count(r, c) == if c in DEFAULT_COLUMNS then 0 else Count(columns, c)
    ensures Subsequence(r, columns)
  {
    var keep := c => c !in DEFAULT_COLUMNS;
    FilterCount(columns, keep);
    Filter(columns, keep)
  }

  /** `[c for c in selected_columns if c in df.columns]`: the PDF forgets selected names that are not columns. */
  function ExistingOnly(selected: seq<string>, columns: seq<string>): (r: seq<string>)
    ensures forall c :: c in r <==> c in selected && c in columns
    ensures forall c :: Count(r, c) == if c in columns then Count(selected, c) else 0
    ensures Subsequence(r, selected)
  {
    var keep := c => c in columns;
    FilterCount(selected, keep);
    Filter(selected, keep)
  }

  /** The selection before the ratios are derived. */
  function InitialSelection(output: Output, t: Table, selected: Option<seq<string>>): seq<string>
  {
    var s := if selected.None? then DefaultSelection(t.columns) else selected.value;
    if output == PdfReport then ExistingOnly(s, t.columns) else s
  }

  /** The PDF and the briefing derive the ratios; Word does not (analyza.py:425-433). */
  function Derived(output: Output, t: Table): (r: Result<Table>)
    requires WellFormed(t)
    ensures r.Ok? ==> WellFormed(r.value)
  {
    if output == WordReport then Ok(t) else DerivedRatios(t)
  }

  /** The selection after the derivation step of the output. */
  function FinalSelection(output: Output, t: Table, selected: seq<string>): seq<string>
  {
    if output == WordReport then selected else SelectedAfter(t, selected)
  }

  /** The working table after the derivation step and `fillna(0)`. */
  function Working(output: Output, t: Table): (r: Result<Table>)
    requires WellFormed(t)
    ensures r.Ok? ==> WellFormed(r.value) && NoMissing(r.value)
  {
    match Derived(output, t)
    case Err(e) => Err(e)
    case Ok(t2) =>
      FilledProperties(t2);
      Ok(Filled(t2))
  }

  /**
    The whole front: every step may raise (a missing identity column in the sheet, two
    headers that clean up alike, a ratio over text, no matching proband).
  */
  function Preparation(output: Output, source: Source, selected: Option<seq<string>>, id: string): (r: Result<Prepared>)
    requires WellFormed(source.table)
    ensures r.Ok? ==> WellFormed(r.value.table) && r.value.row < r.value.table.height
  {
    match Loaded(source)
    case Err(e) => Err(e)
    case Ok(t0) =>
      match Normalized(t0)
      case Err(e) => Err(e)
      case Ok(t1) => PreparedFrom(output, t1, selected, id)
  }

  /** The front after the headers are cleaned up: select, derive, zero-fill, look the proband up. */
  function PreparedFrom(output: Output, t1: Table, selected: Option<seq<string>>, id: string): (r: Result<Prepared>)
    requires WellFormed(t1)
    ensures r.Ok? ==> WellFormed(r.value.table) && r.value.row < r.value.table.height
  {
    var sel := InitialSelection(output, t1, selected);
    match Working(output, t1)
    case Err(e) => Err(e)
    case Ok(t) =>
      match FindProband(t, id)
      case Err(e) => Err(e)
      case Ok(row) => Ok(Prepared(t, row, FinalSelection(output, t1, sel)))
  }

  /**
    The front as the renderers run it, on a fresh working copy that is changed in
    place: rename the headers, derive the ratios into it, zero-fill it, then look the
    proband up.
  */
  method Prepare(output: Output, source: Source, selected: Option<seq<string>>, id: string) returns (r: Result<Prepared>)
    requires WellFormed(source.table)
    ensures r == Preparation(output, source, selected, id)
  {
    var loaded := Loaded(source);
    if loaded.Err? {
      return Err(loaded.error);
    }
    var df := new Frame.Copy(loaded.value);
    var err := df.NormalizeHeaders();
    if err.Some? {
      return Err(err.value);
    }
    r := PrepareFrame(df, output, selected, id);
  }

  /** The steps after the headers are cleaned up, on the working copy. */
  method PrepareFrame(df: Frame, output: Output, selected: Option<seq<string>>, id: string) returns (r: Result<Prepared>)
    requires WellFormed(df.Snapshot())
    modifies df
    ensures r == PreparedFrom(output, old(df.Snapshot()), selected, id)
  {
    ghost var t1 := df.Snapshot();
    var sel := if selected.None? then DefaultSelection(df.columns) else selected.value;
    if output == PdfReport {
      sel := ExistingOnly(sel, df.columns);
    }
    if output != WordReport {
      var err;
      err, sel := DeriveRatios(df, sel);
      if err.Some? {
        return Err(err.value);
      }
    }
    df.FillMissing();
    var row := FindProband(df.Snapshot(), id);
    if row.Err? {
      return Err(row.error);
    }
    r := Ok(Prepared(df.Snapshot(), row.value, sel));
  }

  /**
    On success the table is the working table of the cleaned-up input, with no NaN
    left, the selection is the output's final selection, and the row is the first
    one that holds the proband's identity.
  */
  lemma PreparationProperties(output: Output, source: Source, selected: Option<seq<string>>, id: string)
    requires WellFormed(source.table) && Preparation(output, source, selected, id).Ok?
    ensures Loaded(source).Ok? && Normalized(Loaded(source).value).Ok?
    ensures Working(output, Normalized(Loaded(source).value).value) == Ok(Preparation(output, source, selected, id).value.table)
    ensures Preparation(output, source, selected, id).value.selected ==
      FinalSelection(output, Normalized(Loaded(source).value).value, InitialSelection(output, Normalized(Loaded(source).value).value, selected))
    ensures NoMissing(Preparation(output, source, selected, id).value.table)
    ensures "Identifikace" in Preparation(output, source, selected, id).value.table.data
    ensures Preparation(output, source, selected, id).value.table.data["Identifikace"][Preparation(output, source, selected, id).value.row] == Text(id)
    ensures forall j :: 0 <= j < Preparation(output, source, selected, id).value.row ==>
      Preparation(output, source, selected, id).value.table.data["Identifikace"][j] != Text(id)
  {
  }

  /** `selected` with at most the two ratio names appended. */
  lemma AddOnceMembers(selected: seq<string>, name: string)
    ensures forall x :: x in AddOnce(selected, name) <==> x in selected || x == name
  {
  }

  /**
    The PDF keeps only selected names that are columns, and adds a ratio name only
    with its column: every name of its final selection is a column of its working table.
  */
  lemma PdfSelectionExists(t: Table, selected: Option<seq<string>>)
    requires WellFormed(t) && Working(PdfReport, t).Ok?
    ensures forall c :: c in FinalSelection(PdfReport, t, InitialSelection(PdfReport, t, selected)) ==> c in Working(PdfReport, t).value.data
  {
    var sel := InitialSelection(PdfReport, t, selected);
    var d := DerivedRatios(t).value;
    assert Working(PdfReport, t).value.data.Keys == d.data.Keys;
    var s1 := if HasInputs(t, RATIO_210) then AddOnce(sel, RATIO_210.name) else sel;
    AddOnceMembers(sel, RATIO_210.name);
    AddOnceMembers(s1, RATIO_300.name);
    forall c | c in FinalSelection(PdfReport, t, sel) ensures c in d.data {
      if !Recomputed(t, c) {
        assert c in sel;
        assert c in t.data;
      }
    }
  }

  /**
    The PDF and the briefing keep the selection they start from, in order, and only
    append ratio names whose input columns exist.
  */
  lemma SelectionExtended(output: Output, t: Table, selected: seq<string>)
    requires output != WordReport
    ensures var final := FinalSelection(output, t, selected);
      && |selected| <= |final|
      && final[..|selected|] == selected
      && forall k :: |selected| <= k < |final| ==>
           (final[k] == IR_ER_210 && HasInputs(t, RATIO_210)) || (final[k] == IR_ER_300 && HasInputs(t, RATIO_300))
  {
    var s1 := if HasInputs(t, RATIO_210) then AddOnce(selected, RATIO_210.name) else selected;
    var s2 := SelectedAfter(t, selected);
    assert s1[..|selected|] == selected;
    assert s2[..|s1|] == s1;
    assert s2[..|selected|] == selected;
  }

  /**
    Word derives nothing: its working table is the zero-filled input, and a given
    selection is used as it is (analyza.py:425-433).
  */
  lemma WordTableUnderived(t: Table, selected: Option<seq<string>>)
    requires WellFormed(t)
    ensures Working(WordReport, t) == Ok(Filled(t))
    ensures selected.Some? ==> FinalSelection(WordReport, t, InitialSelection(WordReport, t, selected)) == selected.value
  {
  }

  /** A ratio over a NaN denominator is NaN in the derived table. */
  lemma DerivedRatioOfMissing(t: Table, def: RatioDef, row: nat)
    requires WellFormed(t) && DerivedRatios(t).Ok?
    requires def == RATIO_210 || def == RATIO_300
    requires HasInputs(t, def) && row < t.height && t.data[def.denominator][row] == Missing
    ensures def.name in DerivedRatios(t).value.data && DerivedRatios(t).value.data[def.name][row] == Missing
  {
    RatioColumnsDistinct();
    var ta := DerivedRatio(t, RATIO_210).value;
    var tb := DerivedRatio(ta, RATIO_300).value;
    DerivedRatioKeeps(t, RATIO_210, RATIO_300.numerator);
    DerivedRatioKeeps(t, RATIO_210, RATIO_300.denominator);
    if def == RATIO_210 {
      var cells := DivideColumns(t.data[def.numerator], t.data[def.denominator]).value;
      assert ta.data[def.name] == cells;
      DerivedRatioKeeps(ta, RATIO_300, def.name);
      assert Divide(t.data[def.numerator][row], Missing) == Some(cells[row]);
    } else {
      var cells := DivideColumns(ta.data[def.numerator], ta.data[def.denominator]).value;
      assert tb.data[def.name] == cells;
      assert Divide(ta.data[def.numerator][row], Missing) == Some(cells[row]);
    }
  }

  /**
    The ratios are derived before `fillna(0)`: a ratio whose denominator is NaN in a
    row is 0 in that row of the working table.
  */
  lemma RatioOfMissingIsZero(output: Output, t: Table, def: RatioDef, row: nat)
    requires WellFormed(t) && output != WordReport && Working(output, t).Ok?
    requires def == RATIO_210 || def == RATIO_300
    requires HasInputs(t, def) && row < t.height && t.data[def.denominator][row] == Missing
    ensures def.name in Working(output, t).value.data && Working(output, t).value.data[def.name][row] == Num(0.0)
  {
    DerivedRatioOfMissing(t, def, row);
    var t2 := DerivedRatios(t).value;
    assert |t2.data[def.name]| == t2.height == t.height;
  }
}
