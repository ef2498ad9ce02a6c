/**
  The derived rotation ratios (analyza.py:203-210 and 593-600): when both concentric
  rotation columns of a speed exist, the frame gains the column of their quotient and
  the selection gains the ratio's name, once.
*/
module Derivation {
  import opened Basics
  import opened Strings
  import opened Cells
  import opened Catalog
  import opened Frames

  /**
    `df[numerator] / df[denominator]`, row by row: None where pandas raises TypeError
    because a cell is not a number.
  */
  function DivideColumns(num: seq<Cell>, den: seq<Cell>): (r: Option<seq<Cell>>)
    requires |num| == |den|
    ensures r.Some? <==> forall i :: 0 <= i < |num| ==> IsNumeric(num[i]) && IsNumeric(den[i])
    ensures r.Some? ==> |r.value| == |num| && forall i :: 0 <= i < |num| ==> Divide(num[i], den[i]) == Some(r.value[i])
  {
    if num == [] then Some([])
    else
      var k := |num| - 1;
      match DivideColumns(num[..k], den[..k])
      case None => None
      case Some(init) =>
        match Divide(num[k], den[k])
        case None => None
        case Some(c) => Some(init + [c])
  }

  /** Both columns the ratio is computed from are in the table. */
  predicate HasInputs(t: Table, def: RatioDef)
  {
    def.numerator in t.data && def.denominator in t.data
  }

  /**
    One `if` of analyza.py:203-210 on the table: the ratio column is added (or
    replaced) when both inputs exist, the table is unchanged otherwise.
  */
  function DerivedRatio(t: Table, def: RatioDef): (r: Result<Table>)
    requires WellFormed(t)
    ensures !HasInputs(t, def) ==> r == Ok(t)
    ensures HasInputs(t, def) ==> (r.Ok? <==> DivideColumns(t.data[def.numerator], t.data[def.denominator]).Some?)
    ensures r.Ok? && HasInputs(t, def) ==> r.value == WithColumn(t, def.name, DivideColumns(t.data[def.numerator], t.data[def.denominator]).value)
    ensures r.Ok? ==> WellFormed(r.value)
    ensures r.Err? ==> r.error == TypeMismatch(def.name)
  {
    if HasInputs(t, def) then
      match DivideColumns(t.data[def.numerator], t.data[def.denominator])
      case None => Err(TypeMismatch(def.name))
      case Some(cells) => Ok(WithColumn(t, def.name, cells))
    else Ok(t)
  }

  /** `if name not in selected: selected.append(name)`. */
  function AddOnce(selected: seq<string>, name: string): (r: seq<string>)
    ensures |selected| <= |r| <= |selected| + 1 && name in r && r[..|selected|] == selected
    ensures Count(r, name) == (if name in selected then Count(selected, name) else 1)
    ensures forall x :: x != name ==> Count(r, x) == Count(selected, x)
  {
    if name in selected then selected
    else
      CountAbsent(selected, name);
      forall x | x != name ensures Count(selected + [name], x) == Count(selected, x) {
        CountAppend(selected, name, x);
      }
      CountAppend(selected, name, name);
      assert (selected + [name])[..|selected|] == selected;
      selected + [name]
  }

  /** A name already selected once stays selected once. */
  lemma AddOnceIdempotent(selected: seq<string>, name: string)
    ensures AddOnce(AddOnce(selected, name), name) == AddOnce(selected, name)
    ensures Count(selected, name) <= 1 ==> Count(AddOnce(selected, name), name) == 1
  {
    if name in selected {
      CountAbsent(selected, name);
    }
  }

  /** Dividing the ratio's inputs raises TypeError. */
  predicate DivisionFails(t: Table, def: RatioDef)
    requires WellFormed(t)
  {
    HasInputs(t, def) && DivideColumns(t.data[def.numerator], t.data[def.denominator]).None?
  }

  /** `c` is the column of a ratio whose inputs are in the table. */
  predicate Recomputed(t: Table, c: string)
  {
    (c == RATIO_210.name && HasInputs(t, RATIO_210)) || (c == RATIO_300.name && HasInputs(t, RATIO_300))
  }

  /**
    Both ratios, 210°/s then 300°/s, on the table: each ratio whose inputs exist is
    their quotient, every other column is kept, and the first division that meets a
    non-number is the TypeError.
  */
  function DerivedRatios(t: Table): (r: Result<Table>)
    requires WellFormed(t)
    ensures r.Ok? ==> WellFormed(r.value)
    ensures r.Err? <==> DivisionFails(t, RATIO_210) || DivisionFails(t, RATIO_300)
    ensures r.Err? ==> r.error == TypeMismatch(if DivisionFails(t, RATIO_210) then RATIO_210.name else RATIO_300.name)
    ensures r.Ok? && HasInputs(t, RATIO_210) ==>
      RATIO_210.name in r.value.data && r.value.data[RATIO_210.name] == DivideColumns(t.data[RATIO_210.numerator], t.data[RATIO_210.denominator]).value
    ensures r.Ok? && HasInputs(t, RATIO_300) ==>
      RATIO_300.name in r.value.data && r.value.data[RATIO_300.name] == DivideColumns(t.data[RATIO_300.numerator], t.data[RATIO_300.denominator]).value
    ensures r.Ok? ==> forall c :: !Recomputed(t, c) ==> (c in r.value.data <==> c in t.data) && (c in t.data ==> r.value.data[c] == t.data[c])
  {
    RatioColumnsDistinct();
    match DerivedRatio(t, RATIO_210)
    case Err(e) => Err(e)
    case Ok(t1) =>
      DerivedRatioKeeps(t, RATIO_210, RATIO_300.numerator);
      DerivedRatioKeeps(t, RATIO_210, RATIO_300.denominator);
      assert DivisionFails(t1, RATIO_300) == DivisionFails(t, RATIO_300);
      var r := DerivedRatio(t1, RATIO_300);
      assert r.Ok? ==> forall c :: !Recomputed(t, c) ==> (c in r.value.data <==> c in t.data) && (c in t.data ==> r.value.data[c] == t.data[c]) by {
        if r.Ok? {
          forall c | !Recomputed(t, c) ensures (c in r.value.data <==> c in t.data) && (c in t.data ==> r.value.data[c] == t.data[c]) {
            if c != RATIO_210.name {
              DerivedRatioKeeps(t, RATIO_210, c);
            }
            if c != RATIO_300.name {
              DerivedRatioKeeps(t1, RATIO_300, c);
            }
          }
        }
      }
      assert r.Ok? && HasInputs(t, RATIO_210) ==> r.value.data[RATIO_210.name] == t1.data[RATIO_210.name]
        by { if r.Ok? { DerivedRatioKeeps(t1, RATIO_300, RATIO_210.name); } }
      r
  }

  /** The selection after both `if`s. */
  function SelectedAfter(t: Table, selected: seq<string>): seq<string>
  {
    var s1 := if HasInputs(t, RATIO_210) then AddOnce(selected, RATIO_210.name) else selected;
    if HasInputs(t, RATIO_300) then AddOnce(s1, RATIO_300.name) else s1
  }

  /** A table whose ratio column already holds the quotient of its inputs is left as it is. */
  lemma DerivedRatioFixed(t: Table, def: RatioDef)
    requires WellFormed(t) && HasInputs(t, def)
    requires DivideColumns(t.data[def.numerator], t.data[def.denominator]).Some?
    requires def.name in t.data && t.data[def.name] == DivideColumns(t.data[def.numerator], t.data[def.denominator]).value
    ensures DerivedRatio(t, def) == Ok(t)
  {
    var r := DerivedRatio(t, def).value;
    assert r.data == t.data;
  }

  /** Deriving a ratio again recomputes the same column: the table does not change. */
  lemma DerivedRatioIdempotent(t: Table, def: RatioDef)
    requires WellFormed(t) && DerivedRatio(t, def).Ok?
    requires def.numerator != def.name && def.denominator != def.name
    ensures DerivedRatio(DerivedRatio(t, def).value, def) == DerivedRatio(t, def)
  {
    var t1 := DerivedRatio(t, def).value;
    if HasInputs(t, def) {
      assert t1.data[def.numerator] == t.data[def.numerator] && t1.data[def.denominator] == t.data[def.denominator];
      DerivedRatioFixed(t1, def);
    }
  }

  /**
    Deriving both ratios twice gives what deriving them once gives: the ratios are
    recomputed from raw columns that the derivation never changes.
  */
  lemma DerivedRatiosIdempotent(t: Table)
    requires WellFormed(t) && DerivedRatios(t).Ok?
    ensures DerivedRatios(DerivedRatios(t).value) == DerivedRatios(t)
  {
    RatioColumnsDistinct();
    var t1 := DerivedRatio(t, RATIO_210).value;
    var t2 := DerivedRatio(t1, RATIO_300).value;
    // The 300°/s step leaves the 210°/s columns as the first step left them.
    DerivedRatioKeeps(t1, RATIO_300, RATIO_210.numerator);
    DerivedRatioKeeps(t1, RATIO_300, RATIO_210.denominator);
    DerivedRatioKeeps(t1, RATIO_300, RATIO_210.name);
    if HasInputs(t, RATIO_210) {
      var cells := DivideColumns(t.data[RATIO_210.numerator], t.data[RATIO_210.denominator]).value;
      assert t1.data[RATIO_210.name] == cells;
      assert t1.data[RATIO_210.numerator] == t.data[RATIO_210.numerator];
      assert t1.data[RATIO_210.denominator] == t.data[RATIO_210.denominator];
      DerivedRatioFixed(t2, RATIO_210);
    } else {
      assert !HasInputs(t2, RATIO_210);
    }
    DerivedRatioIdempotent(t1, RATIO_300);
  }

  /** Deriving a ratio leaves every other column as it was. */
  lemma DerivedRatioKeeps(t: Table, def: RatioDef, c: string)
    requires WellFormed(t) && DerivedRatio(t, def).Ok? && c != def.name
    ensures c in DerivedRatio(t, def).value.data <==> c in t.data
    ensures c in t.data ==> DerivedRatio(t, def).value.data[c] == t.data[c]
  {
  }

  /** Rotation torques of 40 and 20 give the ratio 2, printed "2.00". */
  lemma RatioExample()
    ensures DivideColumns([Num(40.0)], [Num(20.0)]) == Some([Num(2.0)])
    ensures FormatVal(Num(2.0)) == "2.00"
  {
    assert [Num(40.0)][..0] == [] && [Num(20.0)][..0] == [];
    assert Divide(Num(40.0), Num(20.0)) == Some(Num(2.0));
    var none: seq<Cell> := [];
    assert DivideColumns(none, none) == Some(none);
    assert none + [Num(2.0)] == [Num(2.0)];
    assert Hundredths(2.0) == 200;
    assert NatToDecimal(2) == "2";
    assert Fixed2Text(2.0) == "2.00";
  }

  /**
    The derivation step of generuj_analyzu and priprav_podklad on the working copy:
    the frame changes as DerivedRatios says and the selection as SelectedAfter says;
    on a TypeError the frame keeps the columns derived before it.
  */
  method DeriveRatios(df: Frame, selected: seq<string>) returns (err: Option<Error>, sel: seq<string>)
    requires WellFormed(df.Snapshot())
    modifies df
    ensures DerivedRatios(old(df.Snapshot())).Ok? ==> err.None? && df.Snapshot() == DerivedRatios(old(df.Snapshot())).value
    ensures DerivedRatios(old(df.Snapshot())).Ok? ==> sel == SelectedAfter(old(df.Snapshot()), selected)
    ensures DerivedRatios(old(df.Snapshot())).Err? ==> err == Some(DerivedRatios(old(df.Snapshot())).error)
    ensures DerivedRatios(old(df.Snapshot())).Err? ==>
      df.Snapshot() == if DivisionFails(old(df.Snapshot()), RATIO_210) then old(df.Snapshot()) else DerivedRatio(old(df.Snapshot()), RATIO_210).value
  {
    ghost var t := df.Snapshot();
    err, sel := DeriveRatio(df, RATIO_210, selected);
    if err.Some? {
      return;
    }
    assert HasInputs(df.Snapshot(), RATIO_300) <==> HasInputs(t, RATIO_300);
    err, sel := DeriveRatio(df, RATIO_300, sel);
  }

  /**
    `df[name] = df[numerator] / df[denominator]` and the name added to the selection,
    when both inputs are columns.
  */
  method DeriveRatio(df: Frame, def: RatioDef, selected: seq<string>) returns (err: Option<Error>, sel: seq<string>)
    requires WellFormed(df.Snapshot())
    modifies df
    ensures DerivedRatio(old(df.Snapshot()), def).Ok? ==> err.None? && df.Snapshot() == DerivedRatio(old(df.Snapshot()), def).value
    ensures DerivedRatio(old(df.Snapshot()), def).Ok? ==> sel == if HasInputs(old(df.Snapshot()), def) then AddOnce(selected, def.name) else selected
    ensures DerivedRatio(old(df.Snapshot()), def).Err? ==> err == Some(DerivedRatio(old(df.Snapshot()), def).error) && df.Snapshot() == old(df.Snapshot())
  {
    sel := selected;
    if def.numerator in df.data && def.denominator in df.data {
      var cells := DivideColumns(df.data[def.numerator], df.data[def.denominator]);
      if cells.None? {
        return Some(TypeMismatch(def.name)), sel;
      }
      df.SetColumn(def.name, cells.value);
      if def.name !in sel {
        sel := sel + [def.name];
      }
    }
    err := None;
  }
}
