/**
  The measurement table (a pandas DataFrame) as a value, the operations the pipeline
  performs on it, and `Frame`, the working copy each renderer mutates in place.
*/
module Frames {
  import opened Basics
  import opened Strings
  import opened Cells

  /** Columns in table order, each column's cells by name, and the number of rows. */
  datatype Table = Table(columns: seq<string>, data: map<string, seq<Cell>>, height: nat)

  /** Column names are distinct, name exactly the stored columns, and every column has `height` cells. */
  ghost predicate WellFormed(t: Table)
  {
    && Distinct(t.columns)
    && (forall c :: c in t.data <==> c in t.columns)
    && (forall c :: c in t.data ==> |t.data[c]| == t.height)
  }

  /** No cell is NaN (the state `fillna(0)` leaves). */
  ghost predicate NoMissing(t: Table)
  {
    forall c, i :: c in t.data && 0 <= i < |t.data[c]| ==> !t.data[c][i].Missing?
  }

  /**
    pandas.api.types.is_numeric_dtype(df[c]): the column holds numbers (and NaN) only;
    a single text, Timedelta or other object makes it an object column.
  */
  predicate Numeric(t: Table, c: string)
  {
    c in t.data && AllNumeric(t.data[c])
  }

  /**
    `df[name] = cells`: an existing column is replaced where it stands, a new one is
    appended after the last column.
  */
  function WithColumn(t: Table, name: string, cells: seq<Cell>): (r: Table)
    requires |cells| == t.height
    ensures r.data == t.data[name := cells] && r.height == t.height
    ensures |t.columns| <= |r.columns| <= |t.columns| + 1 && r.columns[..|t.columns|] == t.columns && name in r.columns
    ensures WellFormed(t) ==> WellFormed(r)
  {
    Table(if name in t.columns then t.columns else t.columns + [name], t.data[name := cells], t.height)
  }

  /** `df.fillna(0)`: every NaN of every column becomes 0. */
  function Filled(t: Table): (r: Table)
    ensures r.columns == t.columns && r.height == t.height && r.data.Keys == t.data.Keys
    ensures forall c, i :: c in t.data && 0 <= i < |t.data[c]| ==> |r.data[c]| == |t.data[c]| && r.data[c][i] == ZeroFill(t.data[c][i])
  {
    Table(t.columns, map c | c in t.data :: seq(|t.data[c]|, i requires 0 <= i < |t.data[c]| => ZeroFill(t.data[c][i])), t.height)
  }

  /** fillna(0) leaves no NaN, keeps the table well formed and changes no column's numeric type. */
  lemma FilledProperties(t: Table)
    requires WellFormed(t)
    ensures WellFormed(Filled(t)) && NoMissing(Filled(t))
    ensures forall c :: Numeric(t, c) <==> Numeric(Filled(t), c)
  {
    var r := Filled(t);
    forall c | true ensures Numeric(t, c) <==> Numeric(r, c) {
      if c in t.data {
        assert forall i :: 0 <= i < |t.data[c]| ==> (IsNumeric(t.data[c][i]) <==> IsNumeric(r.data[c][i]));
      }
    }
  }

  /** Filling twice is filling once. */
  lemma FilledIdempotent(t: Table)
    ensures Filled(Filled(t)) == Filled(t)
  {
    var r := Filled(t);
    var rr := Filled(r);
    forall c | c in r.data ensures rr.data[c] == r.data[c] {
    }
    assert rr.data == r.data;
  }

  /** The renamed headers, in order. */
  function NormalizedNames(columns: seq<string>): (r: seq<string>)
    ensures |r| == |columns|
    ensures forall i :: 0 <= i < |columns| ==> r[i] == NormalizeHeader(columns[i])
  {
    seq(|columns|, i requires 0 <= i < |columns| => NormalizeHeader(columns[i]))
  }

  /**
    `df.columns = df.columns.str.strip().str.replace("\\s+", " ", regex=True)`
    (analyza.py:195): every header is cleaned up, the cells stay with their column.
    Two headers that clean up to the same name are reported as DuplicateHeader.
  */
  function Normalized(t: Table): (r: Result<Table>)
    requires WellFormed(t)
    ensures r.Ok? <==> Distinct(NormalizedNames(t.columns))
    ensures r.Ok? ==> r.value.columns == NormalizedNames(t.columns) && r.value.height == t.height
    ensures r.Ok? ==> WellFormed(r.value)
    ensures r.Ok? ==> forall i :: 0 <= i < |t.columns| ==> r.value.data[NormalizeHeader(t.columns[i])] == t.data[t.columns[i]]
    ensures r.Ok? && NoMissing(t) ==> NoMissing(r.value)
  {
    var names := NormalizedNames(t.columns);
    if Distinct(names) then
      NormalizedWellFormed(t, names);
      Ok(Table(names, Renamed(t.columns, names, t.data), t.height))
    else
      Err(DuplicateHeader(FirstDuplicate(names)))
  }

  lemma NormalizedWellFormed(t: Table, names: seq<string>)
    requires WellFormed(t) && |names| == |t.columns| && Distinct(names)
    ensures var r := Table(names, Renamed(t.columns, names, t.data), t.height);
      && WellFormed(r)
      && (forall i :: 0 <= i < |t.columns| ==> r.data[names[i]] == t.data[t.columns[i]])
      && (NoMissing(t) ==> NoMissing(r))
  {
    var r := Table(names, Renamed(t.columns, names, t.data), t.height);
    RenamedProperties(t.columns, names, t.data);
    forall n | n in r.data ensures |r.data[n]| == t.height && (NoMissing(t) ==> forall i :: 0 <= i < |r.data[n]| ==> !r.data[n][i].Missing?) {
      var i :| 0 <= i < |names| && names[i] == n;
      assert r.data[n] == t.data[t.columns[i]];
    }
  }

  /** The cells of column `cols[i]` stored under the new name `names[i]`. */
  function Renamed(cols: seq<string>, names: seq<string>, data: map<string, seq<Cell>>): map<string, seq<Cell>>
    requires |cols| == |names| && forall c :: c in cols ==> c in data
  {
    if cols == [] then map[]
    else
      var k := |cols| - 1;
      Renamed(cols[..k], names[..k], data)[names[k] := data[cols[k]]]
  }

  lemma {:induction false} RenamedProperties(cols: seq<string>, names: seq<string>, data: map<string, seq<Cell>>)
    requires |cols| == |names| && forall c :: c in cols ==> c in data
    requires Distinct(names)
    ensures forall n :: n in Renamed(cols, names, data) <==> n in names
    ensures forall i :: 0 <= i < |names| ==> Renamed(cols, names, data)[names[i]] == data[cols[i]]
  {
    if cols != [] {
      var k := |cols| - 1;
      RenamedProperties(cols[..k], names[..k], data);
      assert forall i :: 0 <= i < k ==> names[i] != names[k];
    }
  }

  /** Some name that occurs twice in `s`. */
  function FirstDuplicate(s: seq<string>): string
  {
    if |s| == 0 then "" else if s[0] in s[1..] then s[0] else FirstDuplicate(s[1..])
  }

  /** The identity key `Jmeno + " " + Prijmeni + ", " + Narozen` (analyza.py:40). */
  function Identity(jmeno: string, prijmeni: string, narozen: string): string
  {
    jmeno + " " + prijmeni + ", " + narozen
  }

  /**
    The identity determines its three parts whenever the first name holds no space
    and the surname no comma: then the first " " and the first "," of the key are the
    separators.
  */
  lemma IdentityInjective(j1: string, p1: string, n1: string, j2: string, p2: string, n2: string)
    requires ' ' !in j1 && ' ' !in j2 && ',' !in p1 && ',' !in p2
    requires Identity(j1, p1, n1) == Identity(j2, p2, n2)
    ensures j1 == j2 && p1 == p2 && n1 == n2
  {
    var k := Identity(j1, p1, n1);
    FirstSpace(j1, p1 + ", " + n1);
    FirstSpace(j2, p2 + ", " + n2);
    assert k == j1 + (" " + (p1 + ", " + n1)) && k == j2 + (" " + (p2 + ", " + n2));
    assert forall i :: 0 <= i < |j1| ==> k[i] == j1[i] && k[i] != ' ';
    assert forall i :: 0 <= i < |j2| ==> k[i] == j2[i] && k[i] != ' ';
    assert k[|j1|] == ' ' && k[|j2|] == ' ';
    assert |j1| == |j2|;
    assert j1 == k[..|j1|] == j2;
    var rest1 := p1 + ", " + n1;
    var rest2 := p2 + ", " + n2;
    assert rest1 == k[|j1| + 1..] == rest2;
    assert forall i :: 0 <= i < |p1| ==> rest1[i] == p1[i] && rest1[i] != ',';
    assert forall i :: 0 <= i < |p2| ==> rest1[i] == p2[i] && rest1[i] != ',';
    assert rest1[|p1|] == ',' && rest2[|p2|] == ',';
    assert |p1| == |p2|;
    assert p1 == rest1[..|p1|] == p2;
    assert n1 == rest1[|p1| + 2..] == n2;
  }

  lemma FirstSpace(a: string, b: string)
    ensures (a + " " + b)[..|a|] == a && (a + " " + b)[|a|] == ' '
  {
  }

  /**
    Without those conditions two different people can share a key: distinct
    (name, surname, birth date) triples do not always give distinct identities.
  */
  lemma IdentityCollision()
    ensures Identity("Jan Karel", "Novak", "1990-01-01") == Identity("Jan", "Karel Novak", "1990-01-01")
  {
  }

  /** The identity column built from three columns of equal length. */
  function IdentityCells(jmeno: seq<Cell>, prijmeni: seq<Cell>, narozen: seq<Cell>): (r: seq<Cell>)
    requires |jmeno| == |prijmeni| == |narozen|
    ensures |r| == |jmeno|
    ensures forall i :: 0 <= i < |r| ==> r[i] == Text(Identity(CellText(jmeno[i]), CellText(prijmeni[i]), CellText(narozen[i])))
  {
    if jmeno == [] then []
    else
      var k := |jmeno| - 1;
      IdentityCells(jmeno[..k], prijmeni[..k], narozen[..k])
        + [Text(Identity(CellText(jmeno[k]), CellText(prijmeni[k]), CellText(narozen[k])))]
  }

  /** The three columns the identity needs, in the order load_data checks them. */
  const IDENTITY_COLUMNS: seq<string> := ["Jmeno", "Prijmeni", "Narozen"]

  /**
    load_data after reading the sheet (analyza.py:37-41): a KeyError naming the first
    of Jmeno, Prijmeni, Narozen that is missing; otherwise the table gains the
    "Identifikace" column, one key per row.
  */
  function LoadData(sheet: Table): (r: Result<Table>)
    requires WellFormed(sheet)
    ensures r.Err? <==> exists c :: c in IDENTITY_COLUMNS && c !in sheet.data
    ensures r.Err? ==> r.error.MissingColumn? && r.error.name in IDENTITY_COLUMNS && r.error.name !in sheet.data
    ensures r.Err? ==> forall k :: 0 <= k < |IDENTITY_COLUMNS| && IDENTITY_COLUMNS[k] == r.error.name ==>
                          forall l :: 0 <= l < k ==> IDENTITY_COLUMNS[l] in sheet.data
    ensures r.Ok? ==> WellFormed(r.value) && r.value.height == sheet.height
    ensures r.Ok? ==> forall c :: c in sheet.data && c != "Identifikace" ==> c in r.value.data && r.value.data[c] == sheet.data[c]
    ensures r.Ok? ==> "Identifikace" in r.value.data && forall i :: 0 <= i < sheet.height ==>
              r.value.data["Identifikace"][i] == Text(Identity(CellText(sheet.data["Jmeno"][i]), CellText(sheet.data["Prijmeni"][i]), CellText(sheet.data["Narozen"][i])))
  {
    if "Jmeno" !in sheet.data then Err(MissingColumn("Jmeno"))
    else if "Prijmeni" !in sheet.data then Err(MissingColumn("Prijmeni"))
    else if "Narozen" !in sheet.data then Err(MissingColumn("Narozen"))
    else Ok(WithColumn(sheet, "Identifikace", IdentityCells(sheet.data["Jmeno"], sheet.data["Prijmeni"], sheet.data["Narozen"])))
  }

  /** The first index at or after `from` where `cells` holds `key`. */
  function FirstIndexOf(cells: seq<Cell>, key: Cell, from: nat): (r: Option<nat>)
    requires from <= |cells|
    ensures r.Some? ==> from <= r.value < |cells| && cells[r.value] == key && forall j :: from <= j < r.value ==> cells[j] != key
    ensures r.None? ==> forall j :: from <= j < |cells| ==> cells[j] != key
    decreases |cells| - from
  {
    if from == |cells| then None
    else if cells[from] == key then Some(from)
    else FirstIndexOf(cells, key, from + 1)
  }

  /**
    `df[df["Identifikace"] == proband_id].iloc[0]`: the first row whose identity is
    the requested one; KeyError without an identity column, IndexError when no row matches.
  */
  function FindProband(t: Table, id: string): (r: Result<nat>)
    requires WellFormed(t)
    ensures r.Err? <==> "Identifikace" !in t.data || forall i :: 0 <= i < t.height ==> t.data["Identifikace"][i] != Text(id)
    ensures r.Err? ==> r.error == (if "Identifikace" !in t.data then MissingColumn("Identifikace") else ProbandNotFound(id))
    ensures r.Ok? ==> r.value < t.height && t.data["Identifikace"][r.value] == Text(id)
    ensures r.Ok? ==> forall j :: 0 <= j < r.value ==> t.data["Identifikace"][j] != Text(id)
  {
    if "Identifikace" !in t.data then Err(MissingColumn("Identifikace"))
    else match FirstIndexOf(t.data["Identifikace"], Text(id), 0)
      case None => Err(ProbandNotFound(id))
      case Some(i) => Ok(i)
  }

  /**
    The working copy of the measurement table (`df = data_df.copy()`), which each
    renderer changes in place.
  */
  class Frame {
    var columns: seq<string>
    var data: map<string, seq<Cell>>
    var height: nat

    function Snapshot(): Table
      reads this
    {
      Table(columns, data, height)
    }

    constructor Copy(t: Table)
      ensures Snapshot() == t
    {
      columns, data, height := t.columns, t.data, t.height;
    }

    /** `df[name] = cells`. */
    method SetColumn(name: string, cells: seq<Cell>)
      requires |cells| == height
      modifies this
      ensures Snapshot() == WithColumn(old(Snapshot()), name, cells)
    {
      if name !in columns {
        columns := columns + [name];
      }
      data := data[name := cells];
    }

    /** `df.fillna(0, inplace=True)`, column by column. */
    method FillMissing()
      requires WellFormed(Snapshot())
      modifies this
      ensures Snapshot() == Filled(old(Snapshot()))
    {
      ghost var t := Snapshot();
      var i := 0;
      while i < |columns|
        invariant 0 <= i <= |columns|
        invariant columns == t.columns && height == t.height && data.Keys == t.data.Keys
        invariant forall k :: 0 <= k < i ==> data[columns[k]] == Filled(t).data[columns[k]]
        invariant forall k :: i <= k < |columns| ==> data[columns[k]] == t.data[columns[k]]
      {
        var c := columns[i];
        var cells := data[c];
        var filled := seq(|cells|, j requires 0 <= j < |cells| => ZeroFill(cells[j]));
        assert filled == Filled(t).data[c] by {
          SameElements(filled, Filled(t).data[c]);
        }
        assert forall k :: 0 <= k < |columns| && k != i ==> columns[k] != c;
        data := data[c := filled];
        i := i + 1;
      }
      assert forall c :: c in data ==> data[c] == Filled(t).data[c] by {
        forall c | c in data ensures data[c] == Filled(t).data[c] {
          var k :| 0 <= k < |columns| && columns[k] == c;
        }
      }
    }

    /** The header clean-up; on a DuplicateHeader error the frame is left as it was. */
    method NormalizeHeaders() returns (err: Option<Error>)
      requires WellFormed(Snapshot())
      modifies this
      ensures Normalized(old(Snapshot())).Ok? ==> err.None? && Snapshot() == Normalized(old(Snapshot())).value
      ensures Normalized(old(Snapshot())).Err? ==> err == Some(Normalized(old(Snapshot())).error) && Snapshot() == old(Snapshot())
    {
      var before := Snapshot();
      var r := Normalized(before);
      if r.Ok? {
        var t := r.value;
        assert t.height == height;
        columns, data := t.columns, t.data;
        err := None;
        assert Snapshot() == t;
      } else {
        err := Some(r.error);
      }
    }
  }
}
