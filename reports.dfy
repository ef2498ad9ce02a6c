/**
  The three outputs for one proband: the element list of the PDF report
  (generuj_analyzu, analyza.py:186-418), the block list of the Word report
  (generuj_word_report, analyza.py:420-579) and the text briefing
  (priprav_podklad, analyza.py:581-650).
*/
module Reports {
  import opened Basics
  import opened Strings
  import opened Cells
  import opened Catalog
  import opened Frames
  import opened Statistics
  import opened Comparison
  import opened Interpretation
  import opened Sections
  import opened Front

  // ---------------------------------------------------------------------------
  // Documents

  /**
    One element of a report: the PDF uses page breaks, spacers and bold or regular
    paragraphs, Word uses headings and plain paragraphs; both hold tables and charts.
  */
  datatype Element =
    | PageBreak
    | Spacer
    | Bold(text: string)
    | Regular(text: string)
    | Heading(level: nat, text: string)
    | Plain(text: string)
    | Grid(rows: seq<seq<string>>)
    | Picture(chart: Chart)

  /** A finished report: the file name it is saved under and its elements, in order. */
  datatype Report = Report(fileName: string, elements: seq<Element>)

  /** The arguments both report functions take. */
  datatype Request = Request(
    id: string,
    source: Source,
    closing: Option<string>,
    selectedColumns: Option<seq<string>>,
    selectedGraphs: Option<seq<string>>,
    graphType: string,
    comparison: Option<map<string, Cell>>,
    advancedStats: bool,
    groupLabel: Option<string>,
    graphVars: Option<seq<string>>)

  const UNIVERSITY: string := "Univerzita Karlova, Fakulta tělesné výchovy a sportu"

  /** The parts joined one after another. */
  function Flatten<T>(parts: seq<seq<T>>): seq<T>
  {
    if parts == [] then [] else Flatten(parts[..|parts| - 1]) + parts[|parts| - 1]
  }

  /**
    `analyza_<sanitised id><extension>` (analyza.py:215 and 577): the id keeps its
    length and loses every character a file name may not hold.
  */
  function FileName(id: string, extension: string): (r: string)
    ensures |r| == 8 + |id| + |extension| && r[..8] == "analyza_" && r[8 + |id|..] == extension
    ensures forall i :: 8 <= i < 8 + |id| ==> !Forbidden(r[i]) && (r[i] == id[i - 8] || r[i] == '_')
  {
    "analyza_" + SanitizeName(id) + extension
  }

  // ---------------------------------------------------------------------------
  // The opening lines

  /** `proband_data[name]` printed: KeyError when the column is absent. */
  function Attribute(t: Table, row: nat, name: string): (r: Result<string>)
    requires WellFormed(t) && row < t.height
    ensures r.Ok? <==> name in t.data
    ensures r.Ok? ==> r.value == CellText(t.data[name][row])
    ensures r.Err? ==> r.error == MissingColumn(name)
  {
    if name in t.data then Ok(CellText(t.data[name][row])) else Err(MissingColumn(name))
  }

  /** Age, height and weight lines, in that order; the first absent column raises. */
  function PersonalLines(t: Table, row: nat): (r: Result<seq<string>>)
    requires WellFormed(t) && row < t.height
    ensures r.Ok? <==> "Vek" in t.data && "Vyska" in t.data && "Hmotnost" in t.data
    ensures r.Ok? ==> |r.value| == 3
    ensures r.Err? ==> r.error == MissingColumn(if "Vek" !in t.data then "Vek" else if "Vyska" !in t.data then "Vyska" else "Hmotnost")
  {
    match Attribute(t, row, "Vek")
    case Err(e) => Err(e)
    case Ok(age) =>
      match Attribute(t, row, "Vyska")
      case Err(e) => Err(e)
      case Ok(height) =>
        match Attribute(t, row, "Hmotnost")
        case Err(e) => Err(e)
        case Ok(weight) => Ok(["Věk: " + age + " let", "Výška: " + height + " cm", "Hmotnost: " + weight + " kg"])
  }

  /** `.get("DatumMereni", "N/A")` on the proband's row. */
  function MeasuredOn(t: Table, row: nat): string
    requires WellFormed(t) && row < t.height
  {
    if "DatumMereni" in t.data then CellText(t.data["DatumMereni"][row]) else "N/A"
  }

  /**
    The line naming what is compared and when (analyza.py:229-241 and 443-455): the
    group, the chosen population or the current group with the measurement date, or
    both dates when comparing with a historical snapshot.
  */
  function DateLine(t: Table, row: nat, comparison: Option<map<string, Cell>>, groupLabel: Option<string>): (r: string)
    requires WellFormed(t) && row < t.height
    ensures comparison.None? ==> |r| >= |MeasuredOn(t, row)| && r[|r| - |MeasuredOn(t, row)|..] == MeasuredOn(t, row)
  {
    var date := MeasuredOn(t, row);
    match comparison
    case None =>
      (match groupLabel
       case Some(name) =>
         if name == "Aktuální skupina" then "Porovnání probanda s průměrnou hodnotou aktuální skupiny – datum: " + date
         else "Porovnání probanda s průměrnou hodnotou vybrané populace – datum: " + date
       case None => "Porovnání probanda s průměrným výsledkem skupiny – datum: " + date)
    case Some(snapshot) =>
      var historical := if "DatumMereni" in snapshot then CellText(snapshot["DatumMereni"]) else "N/A";
      "Datum aktuálního měření: " + date + "    Datum vybraného historického měření: " + historical
  }

  /** The note under the PDF results table (analyza.py:297-303). */
  function ComparisonNote(comparison: Option<map<string, Cell>>, groupLabel: Option<string>): string
  {
    if comparison.Some? then "• Porovnání: Aktuální měření vs. historické měření."
    else if groupLabel.Some? then "• Porovnání: Proband vs. " + groupLabel.value + "."
    else "• Porovnání: Proband vs. průměr skupiny."
  }

  /** `comparison_data is None` chooses the group average, a snapshot the historical comparison. */
  function BasisOf(comparison: Option<map<string, Cell>>): (b: Basis)
    ensures b.GroupAverage? <==> comparison.None?
    ensures comparison.Some? ==> b.snapshot == comparison.value
  {
    if comparison.None? then GroupAverage else Historical(comparison.value)
  }

  // ---------------------------------------------------------------------------
  // Sections as elements

  /** A chart section as the renderer lays it out. */
  function SectionElements(renderer: Renderer, s: Section): seq<Element>
  {
    match renderer
    case Pdf => [PageBreak, Bold(s.chart.title), Picture(s.chart), Spacer, Regular(s.legend), Spacer,
                 Bold("Vyhodnocení grafu:"), Regular(s.evaluation)]
    case Word => [Heading(3, s.chart.title), Picture(s.chart), Plain(s.legend), Plain("Vyhodnocení grafu:"), Plain(s.evaluation)]
  }

  /** The sections one after another. */
  function SectionsElements(renderer: Renderer, ss: seq<Section>): seq<Element>
  {
    Flatten(seq(|ss|, k requires 0 <= k < |ss| => SectionElements(renderer, ss[k])))
  }

  /**
    The closing recommendation: the PDF starts it on a new page and puts a spacer
    after every paragraph (analyza.py:407-414); Word puts a heading before the
    paragraphs (analyza.py:572-575).
  */
  function ClosingElements(renderer: Renderer, closing: Option<string>): seq<Element>
  {
    if !HasClosing(closing) then [] else ClosingBody(renderer, ClosingParagraphs(renderer, closing))
  }

  /** The heading of the closing recommendation, then its paragraphs. */
  function ClosingBody(renderer: Renderer, paras: seq<string>): seq<Element>
  {
    match renderer
    case Pdf => [PageBreak, Bold("Závěrečné doporučení"), Spacer]
                  + Flatten(seq(|paras|, k requires 0 <= k < |paras| => [Regular(paras[k]), Spacer]))
    case Word => [Heading(3, "Závěrečné doporučení")] + seq(|paras|, k requires 0 <= k < |paras| => Plain(paras[k]))
  }

  /** `if selected_graph_vars is not None`: the sections of the chosen variables, if any. */
  function ChosenSections(t: Table, row: nat, basis: Basis, groupLabel: Option<string>, style: ChartStyle,
                          vars: Option<seq<string>>): Result<seq<Section>>
    requires WellFormed(t) && row < t.height
  {
    if vars.None? then Ok([]) else VariableSections(t, row, basis, groupLabel, style, vars.value)
  }

  // ---------------------------------------------------------------------------
  // The PDF report

  /** Everything up to the results table. */
  function PdfOpening(id: string, personal: seq<string>, dateLine: string): seq<Element>
    requires |personal| == 3
  {
    [Bold(UNIVERSITY), Spacer, Bold("Analýza probanda " + id), Spacer,
     Regular(personal[0]), Regular(personal[1]), Regular(personal[2]), Spacer,
     Regular(dateLine), Spacer]
  }

  /** The results table and the note under it. */
  function PdfResults(table: seq<seq<string>>, note: string): seq<Element>
  {
    [Bold("Výsledky měření"), Grid(table), Spacer, Regular(note), Spacer]
  }

  /** The extended statistics, when asked for. */
  function PdfStatistics(advanced: bool, table: seq<seq<string>>): seq<Element>
  {
    if advanced then [Bold("Rozšířené statistiky (vypočteno z aktuálních měření)"), Grid(table), Spacer] else []
  }

  /** The statistics table of the prepared data. */
  function PreparedStats(p: Prepared): seq<seq<string>>
    requires WellFormed(p.table) && p.row < p.table.height
  {
    StatsTable(p.table, StatsColumns(p.table, p.selected))
  }

  /**
    The PDF report of a prepared table: the opening, the results table, the
    statistics, the group sections, the variable sections and the closing; the first
    step that raises makes the whole report fail.
  */
  function PdfElements(q: Request, p: Prepared): Result<seq<Element>>
    requires WellFormed(p.table) && p.row < p.table.height
  {
    var t, row, basis, style := p.table, p.row, BasisOf(q.comparison), StyleOf(q.graphType);
    match PersonalLines(t, row)
    case Err(e) => Err(e)
    case Ok(personal) =>
      match ComparisonRows(t, row, p.selected, basis, t.columns)
      case Err(e) => Err(e)
      case Ok(rows) =>
        ReportTail(Pdf, q, p, PdfHead(q.id, personal, DateLine(t, row, q.comparison, q.groupLabel),
          ComparisonTable(basis, rows), ComparisonNote(q.comparison, q.groupLabel), q.advancedStats, PreparedStats(p)))
  }

  /** The opening, the results table with its note, and the statistics of the PDF. */
  function PdfHead(id: string, personal: seq<string>, dateLine: string, table: seq<seq<string>>, note: string,
                   advanced: bool, stats: seq<seq<string>>): seq<Element>
    requires |personal| == 3
  {
    PdfOpening(id, personal, dateLine) + PdfResults(table, note) + PdfStatistics(advanced, stats)
  }

  /**
    What both reports add after the statistics: the group sections, the variable
    sections and the closing; the first section that raises makes the report fail.
  */
  function ReportTail(renderer: Renderer, q: Request, p: Prepared, head: seq<Element>): Result<seq<Element>>
    requires WellFormed(p.table) && p.row < p.table.height
  {
    var t, row, basis, style := p.table, p.row, BasisOf(q.comparison), StyleOf(q.graphType);
    match GroupSections(renderer, t, row, p.selected, q.selectedGraphs, basis, q.groupLabel, style, GRAPH_GROUPS)
    case Err(e) => Err(e)
    case Ok(groups) =>
      match ChosenSections(t, row, basis, q.groupLabel, style, q.graphVars)
      case Err(e) => Err(e)
      case Ok(vars) =>
        Ok(head + SectionsElements(renderer, groups) + SectionsElements(renderer, vars) + ClosingElements(renderer, q.closing))
  }

  /** generuj_analyzu: the prepared data, then its report, saved as `analyza_<id>.pdf`. */
  function PdfOutcome(q: Request): Result<Report>
    requires WellFormed(q.source.table)
  {
    match Preparation(PdfReport, q.source, q.selectedColumns, q.id)
    case Err(e) => Err(e)
    case Ok(p) =>
      match PdfElements(q, p)
      case Err(e) => Err(e)
      case Ok(elements) => Ok(Report(FileName(q.id, ".pdf"), elements))
  }

  /** generuj_analyzu as it runs: the elements appended part by part. */
  method GeneratePdf(q: Request) returns (r: Result<Report>)
    requires WellFormed(q.source.table)
    ensures r == PdfOutcome(q)
  {
    var prepared := Prepare(PdfReport, q.source, q.selectedColumns, q.id);
    if prepared.Err? {
      return Err(prepared.error);
    }
    var elements := PdfBody(q, prepared.value);
    if elements.Err? {
      return Err(elements.error);
    }
    r := Ok(Report(FileName(q.id, ".pdf"), elements.value));
  }

  /** The elements of the PDF report of a prepared table, appended part by part. */
  method PdfBody(q: Request, p: Prepared) returns (r: Result<seq<Element>>)
    requires WellFormed(p.table) && p.row < p.table.height
    ensures r == PdfElements(q, p)
  {
    var t, row, basis, style := p.table, p.row, BasisOf(q.comparison), StyleOf(q.graphType);
    var personal := PersonalLines(t, row);
    if personal.Err? {
      return Err(personal.error);
    }
    var elements := PdfOpening(q.id, personal.value, DateLine(t, row, q.comparison, q.groupLabel));
    var table := BuildComparisonTable(t, row, p.selected, basis);
    if table.Err? {
      return Err(table.error);
    }
    elements := elements + PdfResults(table.value, ComparisonNote(q.comparison, q.groupLabel));
    var stats: seq<seq<string>> := [];
    if q.advancedStats {
      stats := BuildStatsTable(t, p.selected);
    }
    elements := elements + PdfStatistics(q.advancedStats, stats);
    r := AppendTail(Pdf, q, p, elements);
  }

  /** The sections and the closing appended to the elements built so far. */
  method AppendTail(renderer: Renderer, q: Request, p: Prepared, head: seq<Element>) returns (r: Result<seq<Element>>)
    requires WellFormed(p.table) && p.row < p.table.height
    ensures r == ReportTail(renderer, q, p, head)
  {
    var t, row, basis, style := p.table, p.row, BasisOf(q.comparison), StyleOf(q.graphType);
    var elements := head;
    var groups := BuildGroupSections(renderer, t, row, p.selected, q.selectedGraphs, basis, q.groupLabel, style, GRAPH_GROUPS);
    if groups.Err? {
      return Err(groups.error);
    }
    elements := elements + SectionsElements(renderer, groups.value);
    var vars: Result<seq<Section>> := Ok([]);
    if q.graphVars.Some? {
      vars := BuildVariableSections(t, row, basis, q.groupLabel, style, q.graphVars.value);
      if vars.Err? {
        return Err(vars.error);
      }
    }
    elements := elements + SectionsElements(renderer, vars.value) + ClosingElements(renderer, q.closing);
    r := Ok(elements);
  }

  // ---------------------------------------------------------------------------
  // The Word report

  /** Everything up to the results table. */
  function WordOpening(id: string, personal: seq<string>, dateLine: string): seq<Element>
    requires |personal| == 3
  {
    [Heading(1, UNIVERSITY), Heading(2, "Analýza probanda " + id),
     Plain(personal[0]), Plain(personal[1]), Plain(personal[2]), Plain(dateLine)]
  }

  /** The extended statistics, when asked for. */
  function WordStatistics(advanced: bool, table: seq<seq<string>>): seq<Element>
  {
    if advanced then [Heading(3, "Rozšířené statistiky (aktuální měření)"), Grid(table)] else []
  }

  /**
    The Word report of a prepared table, in the order of the PDF but without the
    comparison note, spacers and page breaks.
  */
  function WordElements(q: Request, p: Prepared): Result<seq<Element>>
    requires WellFormed(p.table) && p.row < p.table.height
  {
    var t, row, basis, style := p.table, p.row, BasisOf(q.comparison), StyleOf(q.graphType);
    match PersonalLines(t, row)
    case Err(e) => Err(e)
    case Ok(personal) =>
      match ComparisonRows(t, row, p.selected, basis, t.columns)
      case Err(e) => Err(e)
      case Ok(rows) =>
        ReportTail(Word, q, p, WordHead(q.id, personal, DateLine(t, row, q.comparison, q.groupLabel),
          ComparisonTable(basis, rows), q.advancedStats, PreparedStats(p)))
  }

  /** The opening, the results table and the statistics of the Word report. */
  function WordHead(id: string, personal: seq<string>, dateLine: string, table: seq<seq<string>>,
                    advanced: bool, stats: seq<seq<string>>): seq<Element>
    requires |personal| == 3
  {
    WordOpening(id, personal, dateLine) + [Heading(3, "Výsledky měření"), Grid(table)] + WordStatistics(advanced, stats)
  }

  /** generuj_word_report: the prepared data, then its report, saved as `analyza_<id>.docx`. */
  function WordOutcome(q: Request): Result<Report>
    requires WellFormed(q.source.table)
  {
    match Preparation(WordReport, q.source, q.selectedColumns, q.id)
    case Err(e) => Err(e)
    case Ok(p) =>
      match WordElements(q, p)
      case Err(e) => Err(e)
      case Ok(elements) => Ok(Report(FileName(q.id, ".docx"), elements))
  }

  /** generuj_word_report as it runs: the blocks added part by part. */
  method GenerateWord(q: Request) returns (r: Result<Report>)
    requires WellFormed(q.source.table)
    ensures r == WordOutcome(q)
  {
    var prepared := Prepare(WordReport, q.source, q.selectedColumns, q.id);
    if prepared.Err? {
      return Err(prepared.error);
    }
    var elements := WordBody(q, prepared.value);
    if elements.Err? {
      return Err(elements.error);
    }
    r := Ok(Report(FileName(q.id, ".docx"), elements.value));
  }

  /** The elements of the Word report of a prepared table, appended part by part. */
  method WordBody(q: Request, p: Prepared) returns (r: Result<seq<Element>>)
    requires WellFormed(p.table) && p.row < p.table.height
    ensures r == WordElements(q, p)
  {
    var t, row, basis, style := p.table, p.row, BasisOf(q.comparison), StyleOf(q.graphType);
    var personal := PersonalLines(t, row);
    if personal.Err? {
      return Err(personal.error);
    }
    var elements := WordOpening(q.id, personal.value, DateLine(t, row, q.comparison, q.groupLabel));
    var table := BuildComparisonTable(t, row, p.selected, basis);
    if table.Err? {
      return Err(table.error);
    }
    elements := elements + [Heading(3, "Výsledky měření"), Grid(table.value)];
    var stats: seq<seq<string>> := [];
    if q.advancedStats {
      stats := BuildStatsTable(t, p.selected);
    }
    elements := elements + WordStatistics(q.advancedStats, stats);
    r := AppendTail(Word, q, p, elements);
  }

  // ---------------------------------------------------------------------------
  // The charts a report holds

  /** The charts among the elements, in order. */
  function Charts(es: seq<Element>): seq<Chart>
  {
    if es == [] then []
    else Charts(es[..|es| - 1]) + (if es[|es| - 1].Picture? then [es[|es| - 1].chart] else [])
  }

  /** The chart of every section, in order. */
  function SectionCharts(ss: seq<Section>): (r: seq<Chart>)
    ensures |r| == |ss| && forall k :: 0 <= k < |ss| ==> r[k] == ss[k].chart
  {
    seq(|ss|, k requires 0 <= k < |ss| => ss[k].chart)
  }

  lemma {:induction false} ChartsAppend(a: seq<Element>, b: seq<Element>)
    ensures Charts(a + b) == Charts(a) + Charts(b)
    decreases |b|
  {
    if b == [] {
      assert a + b == a;
    } else {
      var n := |b| - 1;
      ChartsAppend(a, b[..n]);
      assert (a + b)[..|a + b| - 1] == a + b[..n];
    }
  }

  lemma {:induction false} FlattenAppend<T>(parts: seq<seq<T>>, x: seq<T>)
    ensures Flatten(parts + [x]) == Flatten(parts) + x
  {
    assert (parts + [x])[..|parts|] == parts;
  }

  /** Elements without a picture hold no chart. */
  lemma {:induction false} NoCharts(es: seq<Element>)
    requires forall k :: 0 <= k < |es| ==> !es[k].Picture?
    ensures Charts(es) == []
    decreases |es|
  {
    if es != [] {
      NoCharts(es[..|es| - 1]);
    }
  }

  /** A section holds one chart, its own. */
  lemma SectionChart(renderer: Renderer, s: Section)
    ensures Charts(SectionElements(renderer, s)) == [s.chart]
  {
    var one := SectionElements(renderer, s);
    var pos := if renderer == Pdf then 2 else 1;
    var picture: seq<Element> := [Picture(s.chart)];
    assert one == one[..pos] + picture + one[pos + 1..];
    NoCharts(one[..pos]);
    NoCharts(one[pos + 1..]);
    assert picture[..0] == [];
    ChartsAppend(one[..pos], picture);
    ChartsAppend(one[..pos] + picture, one[pos + 1..]);
  }

  /** The elements of one more section follow those of the sections before it. */
  lemma SectionsElementsStep(renderer: Renderer, ss: seq<Section>)
    requires ss != []
    ensures SectionsElements(renderer, ss) == SectionsElements(renderer, ss[..|ss| - 1]) + SectionElements(renderer, ss[|ss| - 1])
  {
    var n := |ss| - 1;
    var parts := seq(|ss|, k requires 0 <= k < |ss| => SectionElements(renderer, ss[k]));
    var init := seq(n, k requires 0 <= k < n => SectionElements(renderer, ss[k]));
    assert parts == init + [SectionElements(renderer, ss[n])];
    assert init == seq(|ss[..n]|, k requires 0 <= k < |ss[..n]| => SectionElements(renderer, ss[..n][k]));
    FlattenAppend(init, SectionElements(renderer, ss[n]));
  }

  /** Every section contributes exactly its own chart. */
  lemma {:induction false} SectionsCharts(renderer: Renderer, ss: seq<Section>)
    ensures Charts(SectionsElements(renderer, ss)) == SectionCharts(ss)
    decreases |ss|
  {
    if ss != [] {
      var n := |ss| - 1;
      SectionsElementsStep(renderer, ss);
      SectionsCharts(renderer, ss[..n]);
      ChartsAppend(SectionsElements(renderer, ss[..n]), SectionElements(renderer, ss[n]));
      SectionChart(renderer, ss[n]);
      assert SectionCharts(ss) == SectionCharts(ss[..n]) + [ss[n].chart];
    }
  }

  /** Parts without charts around the section parts leave exactly the sections' charts. */
  lemma ChartsOfParts(head: seq<Element>, d: seq<Element>, e: seq<Element>, f: seq<Element>)
    requires Charts(head) == [] && Charts(f) == []
    ensures Charts(head + d + e + f) == Charts(d) + Charts(e)
  {
    ChartsAppend(head, d);
    ChartsAppend(head + d, e);
    ChartsAppend(head + d + e, f);
  }

  /** The closing recommendation holds no chart. */
  lemma ClosingNoCharts(renderer: Renderer, paras: seq<string>)
    ensures Charts(ClosingBody(renderer, paras)) == []
  {
    var head: seq<Element> := if renderer == Pdf then [PageBreak, Bold("Závěrečné doporučení"), Spacer] else [Heading(3, "Závěrečné doporučení")];
    NoCharts(head);
    if renderer == Pdf {
      var parts := seq(|paras|, k requires 0 <= k < |paras| => [Regular(paras[k]), Spacer]);
      FlattenNoCharts(parts);
      ChartsAppend(head, Flatten(parts));
    } else {
      var body := seq(|paras|, k requires 0 <= k < |paras| => Plain(paras[k]));
      NoCharts(body);
      ChartsAppend(head, body);
    }
  }

  /** The opening, results and statistics of either report hold no chart. */
  lemma HeadsNoCharts(id: string, personal: seq<string>, dateLine: string, table: seq<seq<string>>, note: string,
                      advanced: bool, stats: seq<seq<string>>)
    requires |personal| == 3
    ensures Charts(PdfHead(id, personal, dateLine, table, note, advanced, stats)) == []
    ensures Charts(WordHead(id, personal, dateLine, table, advanced, stats)) == []
  {
    NoCharts(PdfOpening(id, personal, dateLine));
    NoCharts(PdfResults(table, note));
    NoCharts(PdfStatistics(advanced, stats));
    ChartsAppend(PdfOpening(id, personal, dateLine), PdfResults(table, note));
    ChartsAppend(PdfOpening(id, personal, dateLine) + PdfResults(table, note), PdfStatistics(advanced, stats));
    var results: seq<Element> := [Heading(3, "Výsledky měření"), Grid(table)];
    NoCharts(WordOpening(id, personal, dateLine));
    NoCharts(results);
    NoCharts(WordStatistics(advanced, stats));
    ChartsAppend(WordOpening(id, personal, dateLine), results);
    ChartsAppend(WordOpening(id, personal, dateLine) + results, WordStatistics(advanced, stats));
  }

  /** Parts that hold no picture join into elements that hold no chart. */
  lemma {:induction false} FlattenNoCharts(parts: seq<seq<Element>>)
    requires forall k, i :: 0 <= k < |parts| && 0 <= i < |parts[k]| ==> !parts[k][i].Picture?
    ensures Charts(Flatten(parts)) == []
    decreases |parts|
  {
    if parts != [] {
      var n := |parts| - 1;
      FlattenNoCharts(parts[..n]);
      NoCharts(parts[n]);
      ChartsAppend(Flatten(parts[..n]), parts[n]);
    }
  }

  /**
    The sections and closing added after a chart-free head draw exactly one chart per
    emitted group, in group order, then one per chosen variable, in the order chosen.
  */
  lemma TailCharts(renderer: Renderer, q: Request, p: Prepared, head: seq<Element>)
    requires WellFormed(p.table) && p.row < p.table.height && Charts(head) == []
    requires ReportTail(renderer, q, p, head).Ok?
    ensures GroupSections(renderer, p.table, p.row, p.selected, q.selectedGraphs, BasisOf(q.comparison), q.groupLabel, StyleOf(q.graphType), GRAPH_GROUPS).Ok?
    ensures ChosenSections(p.table, p.row, BasisOf(q.comparison), q.groupLabel, StyleOf(q.graphType), q.graphVars).Ok?
    ensures Charts(ReportTail(renderer, q, p, head).value) ==
      SectionCharts(GroupSections(renderer, p.table, p.row, p.selected, q.selectedGraphs, BasisOf(q.comparison), q.groupLabel, StyleOf(q.graphType), GRAPH_GROUPS).value)
      + SectionCharts(ChosenSections(p.table, p.row, BasisOf(q.comparison), q.groupLabel, StyleOf(q.graphType), q.graphVars).value)
  {
    var t, row, basis, style := p.table, p.row, BasisOf(q.comparison), StyleOf(q.graphType);
    var groups := GroupSections(renderer, t, row, p.selected, q.selectedGraphs, basis, q.groupLabel, style, GRAPH_GROUPS).value;
    var vars := ChosenSections(t, row, basis, q.groupLabel, style, q.graphVars).value;
    if HasClosing(q.closing) {
      ClosingNoCharts(renderer, ClosingParagraphs(renderer, q.closing));
    } else {
      NoCharts(ClosingElements(renderer, q.closing));
    }
    SectionsCharts(renderer, groups);
    SectionsCharts(renderer, vars);
    ChartsOfParts(head, SectionsElements(renderer, groups), SectionsElements(renderer, vars), ClosingElements(renderer, q.closing));
  }

  /**
    The PDF report of prepared data draws exactly one chart per emitted group, in
    group order, then one per chosen variable, in the order chosen; nothing else in it
    is a chart.
  */
  lemma PdfReportCharts(q: Request, p: Prepared)
    requires WellFormed(p.table) && p.row < p.table.height && PdfElements(q, p).Ok?
    ensures GroupSections(Pdf, p.table, p.row, p.selected, q.selectedGraphs, BasisOf(q.comparison), q.groupLabel, StyleOf(q.graphType), GRAPH_GROUPS).Ok?
    ensures ChosenSections(p.table, p.row, BasisOf(q.comparison), q.groupLabel, StyleOf(q.graphType), q.graphVars).Ok?
    ensures Charts(PdfElements(q, p).value) ==
      SectionCharts(GroupSections(Pdf, p.table, p.row, p.selected, q.selectedGraphs, BasisOf(q.comparison), q.groupLabel, StyleOf(q.graphType), GRAPH_GROUPS).value)
      + SectionCharts(ChosenSections(p.table, p.row, BasisOf(q.comparison), q.groupLabel, StyleOf(q.graphType), q.graphVars).value)
  {
    var personal := PersonalLines(p.table, p.row).value;
    var rows := ComparisonRows(p.table, p.row, p.selected, BasisOf(q.comparison), p.table.columns).value;
    var dateLine, table, note := DateLine(p.table, p.row, q.comparison, q.groupLabel), ComparisonTable(BasisOf(q.comparison), rows), ComparisonNote(q.comparison, q.groupLabel);
    HeadsNoCharts(q.id, personal, dateLine, table, note, q.advancedStats, PreparedStats(p));
    TailCharts(Pdf, q, p, PdfHead(q.id, personal, dateLine, table, note, q.advancedStats, PreparedStats(p)));
  }

  /**
    The Word report likewise draws one chart per emitted group (none at all without a
    group selection) and one per chosen variable, and no other chart.
  */
  lemma WordReportCharts(q: Request, p: Prepared)
    requires WellFormed(p.table) && p.row < p.table.height && WordElements(q, p).Ok?
    ensures GroupSections(Word, p.table, p.row, p.selected, q.selectedGraphs, BasisOf(q.comparison), q.groupLabel, StyleOf(q.graphType), GRAPH_GROUPS).Ok?
    ensures ChosenSections(p.table, p.row, BasisOf(q.comparison), q.groupLabel, StyleOf(q.graphType), q.graphVars).Ok?
    ensures Charts(WordElements(q, p).value) ==
      SectionCharts(GroupSections(Word, p.table, p.row, p.selected, q.selectedGraphs, BasisOf(q.comparison), q.groupLabel, StyleOf(q.graphType), GRAPH_GROUPS).value)
      + SectionCharts(ChosenSections(p.table, p.row, BasisOf(q.comparison), q.groupLabel, StyleOf(q.graphType), q.graphVars).value)
    ensures q.selectedGraphs.None? ==>
      GroupSections(Word, p.table, p.row, p.selected, q.selectedGraphs, BasisOf(q.comparison), q.groupLabel, StyleOf(q.graphType), GRAPH_GROUPS) == Ok([])
  {
    var personal := PersonalLines(p.table, p.row).value;
    var rows := ComparisonRows(p.table, p.row, p.selected, BasisOf(q.comparison), p.table.columns).value;
    var dateLine, table, note := DateLine(p.table, p.row, q.comparison, q.groupLabel), ComparisonTable(BasisOf(q.comparison), rows), ComparisonNote(q.comparison, q.groupLabel);
    HeadsNoCharts(q.id, personal, dateLine, table, note, q.advancedStats, PreparedStats(p));
    TailCharts(Word, q, p, WordHead(q.id, personal, dateLine, table, q.advancedStats, PreparedStats(p)));
    if q.selectedGraphs.None? {
      WordGroupsNeedSelection(p.table, p.row, p.selected, BasisOf(q.comparison), q.groupLabel, StyleOf(q.graphType), GRAPH_GROUPS);
    }
  }

  // ---------------------------------------------------------------------------
  // The text briefing

  /** f"{a:30} {b:>10} {c:>10} {d:>10}": a name column 30 wide, then three value columns 10 wide. */
  function BriefingLine(a: string, b: string, c: string, d: string): string
  {
    PadRight(a, 30) + " " + PadLeft(b, 10) + " " + PadLeft(c, 10) + " " + PadLeft(d, 10)
  }

  /** The column titles of the briefing's table. */
  function BriefingHeader(basis: Basis): string
  {
    BriefingLine("Parametr", "Aktuální", if basis.GroupAverage? then "Průměr" else "Historické", "Rozdíl")
  }

  /** One row of the briefing's table. */
  function RowLine(x: Row): string
  {
    BriefingLine(x.metric, FormatVal(x.current), FormatVal(x.reference), FormatVal(x.difference))
  }

  /** `"-" * n`. */
  function Dashes(n: nat): (r: string)
    ensures |r| == n && forall i :: 0 <= i < n ==> r[i] == '-'
  {
    if n == 0 then "" else Dashes(n - 1) + "-"
  }

  /** The request for the closing text that ends the briefing (analyza.py:641-648). */
  const INSTRUCTIONS: seq<string> := [
    "",
    "Instrukce:",
    "Na základě těchto výsledků vygenerujte prosím závěrečné hodnocení, které obsahuje:",
    "- Celkové zhodnocení probanda",
    "- Hlavní body (silné a slabé stránky)",
    "- Doporučení pro trénink: koncentrický, excentrický, izometrický, plyometrický",
    "- Návrh konkrétních cviků",
    "- Komentář založený na vědeckých článcích o tenise"]

  /** The lines before the rows: title, rule, personal lines, table header and its rule. */
  function BriefingHead(id: string, personal: seq<string>, basis: Basis): seq<string>
    requires |personal| == 3
  {
    ["Podklad pro hodnocení probanda " + id, Dashes(50), personal[0], personal[1], personal[2], "",
     "Výsledky měření:", BriefingHeader(basis), Dashes(|BriefingHeader(basis)|)]
  }

  /** One line per row, in row order. */
  function RowLines(rows: seq<Row>): (r: seq<string>)
    ensures |r| == |rows| && forall k :: 0 <= k < |rows| ==> r[k] == RowLine(rows[k])
  {
    seq(|rows|, k requires 0 <= k < |rows| => RowLine(rows[k]))
  }

  /**
    priprav_podklad: the lines of the prepared data (with the ratios derived and the
    selection not restricted to existing columns), joined with line breaks.
  */
  function BriefingOutcome(id: string, source: Source, selected: Option<seq<string>>, comparison: Option<map<string, Cell>>): Result<string>
    requires WellFormed(source.table)
  {
    match Preparation(Briefing, source, selected, id)
    case Err(e) => Err(e)
    case Ok(p) => BriefingText(id, p, BasisOf(comparison))
  }

  /** The briefing of a prepared table: the head, one line per listed column, the instructions. */
  function BriefingText(id: string, p: Prepared, basis: Basis): Result<string>
    requires WellFormed(p.table) && p.row < p.table.height
  {
    match PersonalLines(p.table, p.row)
    case Err(e) => Err(e)
    case Ok(personal) =>
      match ComparisonRows(p.table, p.row, p.selected, basis, p.table.columns)
      case Err(e) => Err(e)
      case Ok(rows) => Ok(Join(BriefingHead(id, personal, basis) + RowLines(rows) + INSTRUCTIONS, "\n"))
  }

  /** One more row appends one more line. */
  lemma RowLinesAppend(lines: seq<string>, rows: seq<Row>, x: Row)
    ensures lines + RowLines(rows + [x]) == lines + RowLines(rows) + [RowLine(x)]
  {
    assert RowLines(rows + [x]) == RowLines(rows) + [RowLine(x)];
  }

  /**
    The row lines of analyza.py:614-639, appended to `lines` column by column in
    frame order, or the error of the first column that raises.
  */
  method AppendRowLines(t: Table, row: nat, selected: seq<string>, basis: Basis, lines: seq<string>) returns (r: Result<seq<string>>)
    requires WellFormed(t) && row < t.height
    ensures ComparisonRows(t, row, selected, basis, t.columns).Ok? ==>
      r == Ok(lines + RowLines(ComparisonRows(t, row, selected, basis, t.columns).value))
    ensures ComparisonRows(t, row, selected, basis, t.columns).Err? ==>
      r == Err(ComparisonRows(t, row, selected, basis, t.columns).error)
  {
    var out := lines;
    ghost var rows: seq<Row> := [];
    var i := 0;
    while i < |t.columns|
      invariant 0 <= i <= |t.columns|
      invariant ComparisonRows(t, row, selected, basis, t.columns[..i]) == Ok(rows)
      invariant out == lines + RowLines(rows)
    {
      var c := t.columns[i];
      RowsStep(t, row, selected, basis, t.columns, i, rows);
      if Listed(t, selected, c) {
        var x := RowFor(t, row, c, basis);
        if x.Err? {
          ErrorPersists(t, row, selected, basis, t.columns, i + 1);
          return Err(x.error);
        }
        if x.value.Some? {
          RowLinesAppend(lines, rows, x.value.value);
          out := out + [RowLine(x.value.value)];
          rows := rows + [x.value.value];
        }
      }
      i := i + 1;
    }
    assert t.columns[..i] == t.columns;
    r := Ok(out);
  }

  /** priprav_podklad as it runs: the lines appended one by one, then joined. */
  method Brief(id: string, source: Source, selected: Option<seq<string>>, comparison: Option<map<string, Cell>>) returns (r: Result<string>)
    requires WellFormed(source.table)
    ensures r == BriefingOutcome(id, source, selected, comparison)
  {
    var prepared := Prepare(Briefing, source, selected, id);
    if prepared.Err? {
      return Err(prepared.error);
    }
    r := BriefBody(id, prepared.value, BasisOf(comparison));
  }

  /** The briefing of a prepared table, its lines appended one by one. */
  method BriefBody(id: string, p: Prepared, basis: Basis) returns (r: Result<string>)
    requires WellFormed(p.table) && p.row < p.table.height
    ensures r == BriefingText(id, p, basis)
  {
    var personal := PersonalLines(p.table, p.row);
    if personal.Err? {
      return Err(personal.error);
    }
    var lines := AppendRowLines(p.table, p.row, p.selected, basis, BriefingHead(id, personal.value, basis));
    if lines.Err? {
      return Err(lines.error);
    }
    r := Ok(Join(lines.value + INSTRUCTIONS, "\n"));
  }

  /** Fields that fit their widths give a 63-character line with each field at its place. */
  lemma BriefingLineLayout(a: string, b: string, c: string, d: string)
    requires |a| <= 30 && |b| <= 10 && |c| <= 10 && |d| <= 10
    ensures var line := BriefingLine(a, b, c, d);
      && |line| == 63
      && line[..30] == PadRight(a, 30) && line[31..41] == PadLeft(b, 10)
      && line[42..52] == PadLeft(c, 10) && line[53..] == PadLeft(d, 10)
      && line[30] == ' ' && line[41] == ' ' && line[52] == ' '
  {
    FieldPositions(PadRight(a, 30), PadLeft(b, 10), PadLeft(c, 10), PadLeft(d, 10));
  }

  /** Where the four fields of a line of widths 30, 10, 10 and 10 start and end. */
  lemma FieldPositions(pa: string, pb: string, pc: string, pd: string)
    requires |pa| == 30 && |pb| == 10 && |pc| == 10 && |pd| == 10
    ensures var line := pa + " " + pb + " " + pc + " " + pd;
      && |line| == 63
      && line[..30] == pa && line[31..41] == pb && line[42..52] == pc && line[53..] == pd
      && line[30] == ' ' && line[41] == ' ' && line[52] == ' '
  {
    var line := pa + " " + pb + " " + pc + " " + pd;
    var head := pa + " " + pb;
    var tail := " " + pc + " " + pd;
    assert line == head + tail;
    assert line[..30] == head[..30] == pa;
    assert line[31..41] == head[31..41] == pb;
    assert line[41..] == tail;
    assert tail[1..11] == pc && tail[12..] == pd;
    assert line[42..52] == tail[1..11];
    assert line[53..] == tail[12..];
  }

  /**
    `{a:30}` and `{b:>10}` pad but never cut: each field takes its width or, when
    longer, its own length.
  */
  lemma BriefingLineWidth(a: string, b: string, c: string, d: string)
    ensures |BriefingLine(a, b, c, d)| == Max(|a|, 30) + Max(|b|, 10) + Max(|c|, 10) + Max(|d|, 10) + 3
  {
  }

  /**
    A row whose name is longer than 30 characters is longer than the header and its
    rule by at least the excess, so its value columns sit further right.
  */
  lemma LongNameRowWider(basis: Basis, x: Row)
    requires |x.metric| > 30
    ensures |RowLine(x)| >= |BriefingHeader(basis)| + |x.metric| - 30
    ensures |RowLine(x)| > |Dashes(|BriefingHeader(basis)|)|
  {
    var ref := if basis.GroupAverage? then "Průměr" else "Historické";
    assert |"Parametr"| <= 30 && |"Aktuální"| <= 10 && |ref| <= 10 && |"Rozdíl"| <= 10;
    BriefingLineWidth("Parametr", "Aktuální", ref, "Rozdíl");
    BriefingLineWidth(x.metric, FormatVal(x.current), FormatVal(x.reference), FormatVal(x.difference));
  }

  /**
    The rotation metrics of GRAPH_GROUPS are such names: the row of the 36-character
    concentric internal rotation at 210°/s is 69 characters long against a 63-wide header.
  */
  lemma RotationRowWider(basis: Basis, x: Row)
    requires x.metric == IR_CONC_210
    requires |FormatVal(x.current)| <= 10 && |FormatVal(x.reference)| <= 10 && |FormatVal(x.difference)| <= 10
    ensures |x.metric| == 36
    ensures |BriefingHeader(basis)| == 63 && |RowLine(x)| == 69
  {
    BriefingAligned(basis, Row("Parametr", x.current, x.reference, x.difference));
    BriefingLineWidth(x.metric, FormatVal(x.current), FormatVal(x.reference), FormatVal(x.difference));
  }

  /**
    The briefing's table is 63 characters wide: the header, and every row whose name
    fits in 30 characters and whose values fit in 10, are 63 characters long, so
    BriefingLineLayout puts their columns at the same places.
  */
  lemma BriefingAligned(basis: Basis, x: Row)
    requires |x.metric| <= 30
    requires |FormatVal(x.current)| <= 10 && |FormatVal(x.reference)| <= 10 && |FormatVal(x.difference)| <= 10
    ensures |BriefingHeader(basis)| == 63
    ensures |RowLine(x)| == 63
  {
    var ref := if basis.GroupAverage? then "Průměr" else "Historické";
    assert |"Parametr"| <= 30 && |"Aktuální"| <= 10 && |ref| <= 10 && |"Rozdíl"| <= 10;
    BriefingLineLayout("Parametr", "Aktuální", ref, "Rozdíl");
    BriefingLineLayout(x.metric, FormatVal(x.current), FormatVal(x.reference), FormatVal(x.difference));
  }
}
