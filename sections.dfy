/**
  The chart sections of the reports: one section per predefined group that is
  selected and keeps at least one selected member (analyza.py:327-377 for the PDF,
  502-545 for Word), one section per individually chosen variable (analyza.py:379-405
  and 547-570), and the closing recommendation split into paragraphs
  (analyza.py:407-414 and 572-575).
*/
module Sections {
  import opened Basics
  import opened Strings
  import opened Cells
  import opened Catalog
  import opened Frames
  import opened Statistics
  import opened Comparison
  import opened Interpretation

  /** The document a section is rendered into; the two renderers differ in a few rules. */
  datatype Renderer = Pdf | Word

  /** What generate_graph is asked to draw: title, labels, both series, style and legend names. */
  datatype Chart = Chart(title: string, labels: seq<string>, current: seq<Cell>, reference: seq<Option<Cell>>,
                         style: ChartStyle, currentLabel: string, referenceLabel: string)

  /** A chart with its legend paragraph and its evaluation paragraph. */
  datatype Section = Section(chart: Chart, legend: string, evaluation: string)

  // ---------------------------------------------------------------------------
  // Which groups are drawn, and with which labels

  /**
    The group passes the `selected_graphs` test: the PDF draws every group when no
    selection is given, Word draws none (analyza.py:329 and 502-504).
  */
  predicate Wanted(renderer: Renderer, selectedGraphs: Option<seq<string>>, title: string)
  {
    match renderer
    case Pdf => selectedGraphs.None? || title in selectedGraphs.value
    case Word => selectedGraphs.Some? && title in selectedGraphs.value
  }

  /** `[p for p in popisky if p in selected_columns]`: the selected members, in group order. */
  function Charted(members: seq<string>, selected: seq<string>): (r: seq<string>)
    ensures forall p :: p in r <==> p in members && p in selected
    ensures forall p :: Count(r, p) == if p in selected then Count(members, p) else 0
    ensures Subsequence(r, members)
  {
    var keep := p => p in selected;
    FilterCount(members, keep);
    Filter(members, keep)
  }

  /** The group gets a section. */
  predicate Emitted(renderer: Renderer, selectedGraphs: Option<seq<string>>, selected: seq<string>, g: GraphGroup)
  {
    Wanted(renderer, selectedGraphs, g.title) && Charted(g.members, selected) != []
  }

  /**
    The series names of a group chart: the PDF names the reference after the group
    label when there is one, Word always calls it the group average.
  */
  function SeriesNames(renderer: Renderer, basis: Basis, groupLabel: Option<string>): (r: (string, string))
    ensures basis.Historical? ==> r == ("Aktuální měření", "Historické měření")
    ensures basis.GroupAverage? ==> r.0 == "Proband"
    ensures basis.GroupAverage? && renderer == Pdf && groupLabel.Some? ==> r.1 == groupLabel.value
    ensures basis.GroupAverage? && (renderer == Word || groupLabel.None?) ==> r.1 == "Průměr skupiny"
  {
    match basis
    case Historical(_) => ("Aktuální měření", "Historické měření")
    case GroupAverage =>
      if renderer == Pdf && groupLabel.Some? then ("Proband", groupLabel.value) else ("Proband", "Průměr skupiny")
  }

  // ---------------------------------------------------------------------------
  // The values of a chart

  /** `[proband_data[p] for p in labels]`: KeyError for the first label that is not a column. */
  function Currents(t: Table, row: nat, labels: seq<string>): (r: Result<seq<Cell>>)
    requires WellFormed(t) && row < t.height
    ensures r.Ok? <==> forall p :: p in labels ==> p in t.data
    ensures r.Ok? ==> |r.value| == |labels| && forall k :: 0 <= k < |labels| ==> r.value[k] == t.data[labels[k]][row]
    ensures r.Err? ==> r.error.MissingColumn? && r.error.name in labels && r.error.name !in t.data
  {
    if labels == [] then Ok([])
    else
      var init := labels[..|labels| - 1];
      var p := labels[|labels| - 1];
      assert forall x :: x in labels <==> x in init || x == p by {
        assert labels == init + [p];
      }
      match Currents(t, row, init)
      case Err(e) => Err(e)
      case Ok(cells) =>
        if p in t.data then Ok(cells + [t.data[p][row]]) else Err(MissingColumn(p))
  }

  /**
    The reference value of one group member: the column's mean (KeyError when the
    column is absent, TypeError when it is not numeric), or the snapshot value with
    the ratio recomputation, None when the snapshot cannot supply it.
  */
  function ReferenceOf(t: Table, basis: Basis, metric: string): (r: Result<Option<Cell>>)
    ensures basis.GroupAverage? ==> (r.Ok? <==> Numeric(t, metric))
    ensures basis.GroupAverage? && r.Ok? ==> r.value.Some? && Some(r.value.value) == Mean(t.data[metric])
    ensures basis.GroupAverage? && metric !in t.data ==> r == Err(MissingColumn(metric))
    ensures basis.Historical? ==> r == HistoricalValue(basis.snapshot, metric)
  {
    match basis
    case Historical(snapshot) => HistoricalValue(snapshot, metric)
    case GroupAverage =>
      if metric !in t.data then Err(MissingColumn(metric))
      else match Mean(t.data[metric])
        case None => Err(TypeMismatch(metric))
        case Some(m) => Ok(Some(m))
  }

  /** `comp_values`: the reference of every label, in label order. */
  function References(t: Table, basis: Basis, labels: seq<string>): (r: Result<seq<Option<Cell>>>)
    ensures r.Ok? <==> forall k :: 0 <= k < |labels| ==> ReferenceOf(t, basis, labels[k]).Ok?
    ensures r.Ok? ==> |r.value| == |labels| && forall k :: 0 <= k < |labels| ==> r.value[k] == ReferenceOf(t, basis, labels[k]).value
  {
    if labels == [] then Ok([])
    else
      var n := |labels| - 1;
      assert forall k :: 0 <= k < n ==> labels[..n][k] == labels[k];
      match References(t, basis, labels[..n])
      case Err(e) => Err(e)
      case Ok(refs) =>
        match ReferenceOf(t, basis, labels[n])
        case Err(e) => Err(e)
        case Ok(v) => Ok(refs + [v])
  }

  /**
    `[comparison_data.get(p, None) for p in labels]`: the snapshot values Word hands to
    the interpretation, without the ratio recomputation (analyza.py:543).
  */
  function RawSnapshotValues(snapshot: map<string, Cell>, labels: seq<string>): (r: seq<Option<Cell>>)
    ensures |r| == |labels|
    ensures forall k :: 0 <= k < |labels| ==> r[k] == (if labels[k] in snapshot then Some(snapshot[labels[k]]) else None)
  {
    seq(|labels|, k requires 0 <= k < |labels| => if labels[k] in snapshot then Some(snapshot[labels[k]]) else None)
  }

  // ---------------------------------------------------------------------------
  // Legends

  /** The metric has a line in the legend table. */
  predicate Described(metric: string)
  {
    metric in VARIABLE_LEGENDS
  }

  /** One legend line: the metric, a colon and its description. */
  function LegendLine(metric: string): string
    requires metric in VARIABLE_LEGENDS
  {
    metric + ": " + VARIABLE_LEGENDS[metric] + "\n"
  }

  /** The legend lines of the labels that have a description, in label order. */
  function LegendEntries(labels: seq<string>): string
  {
    if labels == [] then ""
    else
      var p := labels[|labels| - 1];
      LegendEntries(labels[..|labels| - 1]) + (if p in VARIABLE_LEGENDS then LegendLine(p) else "")
  }

  /** The legend paragraph of a group chart. */
  function LegendText(labels: seq<string>): string
  {
    "Legenda:\n" + LegendEntries(labels)
  }

  /** A label without a description adds no line: the legend is that of the described labels. */
  lemma {:induction false} LegendSkipsUndescribed(labels: seq<string>)
    ensures LegendEntries(labels) == LegendEntries(Filter(labels, Described))
  {
    if labels != [] {
      var init := labels[..|labels| - 1];
      var p := labels[|labels| - 1];
      LegendSkipsUndescribed(init);
      var f := Filter(labels, Described);
      if Described(p) {
        assert f == Filter(init, Described) + [p];
        assert f[..|f| - 1] == Filter(init, Described);
      } else {
        assert f == Filter(init, Described);
      }
    }
  }

  /** Every charted member of a predefined group is described: its legend lists every label. */
  lemma GroupLegendComplete(g: GraphGroup, selected: seq<string>)
    requires g in GRAPH_GROUPS
    ensures Filter(Charted(g.members, selected), Described) == Charted(g.members, selected)
  {
    GroupMembersDescribed();
    var labels := Charted(g.members, selected);
    FilterAll(labels, Described);
  }

  /** One more label adds its line, if it has one. */
  lemma LegendStep(labels: seq<string>, i: nat)
    requires i < |labels|
    ensures LegendEntries(labels[..i + 1]) == LegendEntries(labels[..i]) + (if Described(labels[i]) then LegendLine(labels[i]) else "")
  {
    assert labels[..i + 1][..i] == labels[..i];
  }

  /** Appending to what follows a fixed head appends to the whole. */
  lemma AppendAfter(head: string, body: string, x: string)
    ensures head + (body + x) == (head + body) + x
  {
  }

  /** `legend_text += ...` over the labels (analyza.py:365-370 and 535-538). */
  method BuildLegend(labels: seq<string>) returns (text: string)
    ensures text == LegendText(labels)
  {
    text := "Legenda:\n";
    for i := 0 to |labels|
      invariant text == LegendText(labels[..i])
    {
      LegendStep(labels, i);
      if labels[i] in VARIABLE_LEGENDS {
        AppendAfter("Legenda:\n", LegendEntries(labels[..i]), LegendLine(labels[i]));
        text := text + LegendLine(labels[i]);
      }
    }
    assert labels[..|labels|] == labels;
  }

  // ---------------------------------------------------------------------------
  // Group sections

  /**
    The values a group's interpretation compares against: the Word report, against a
    snapshot, hands interpretuj_graf the snapshot's raw values; otherwise they are the
    charted references.
  */
  function Evaluated(renderer: Renderer, basis: Basis, labels: seq<string>, refs: seq<Option<Cell>>): (r: seq<Option<Cell>>)
    requires |refs| == |labels|
    ensures |r| == |labels|
  {
    if renderer == Word && basis.Historical? then RawSnapshotValues(basis.snapshot, labels) else refs
  }

  /**
    The section of one emitted group: the chart of the charted labels, the legend, and
    the interpretation. Word interprets the raw snapshot values, the PDF the same
    values it charts.
  */
  function GroupSection(renderer: Renderer, t: Table, row: nat, basis: Basis, groupLabel: Option<string>,
                        style: ChartStyle, title: string, labels: seq<string>): (r: Result<Section>)
    requires WellFormed(t) && row < t.height
    ensures r.Ok? ==> r.value.chart.title == title && r.value.chart.labels == labels && r.value.chart.style == style
    ensures r.Ok? ==> |r.value.chart.current| == |labels| && |r.value.chart.reference| == |labels|
    ensures r.Ok? ==> Currents(t, row, labels) == Ok(r.value.chart.current) && References(t, basis, labels) == Ok(r.value.chart.reference)
    ensures r.Ok? ==> r.value.legend == LegendText(labels)
    ensures r.Ok? ==> (r.value.chart.currentLabel, r.value.chart.referenceLabel) == SeriesNames(renderer, basis, groupLabel)
    ensures r.Ok? <==>
      && References(t, basis, labels).Ok? && Currents(t, row, labels).Ok?
      && Interpret(labels, Currents(t, row, labels).value, Evaluated(renderer, basis, labels, References(t, basis, labels).value)).Ok?
    ensures References(t, basis, labels).Ok? && Currents(t, row, labels).Ok? && r.Err? ==>
      r == Err(Interpret(labels, Currents(t, row, labels).value, Evaluated(renderer, basis, labels, References(t, basis, labels).value)).error)
    ensures References(t, basis, labels).Err? ==> r == Err(References(t, basis, labels).error)
    ensures References(t, basis, labels).Ok? && Currents(t, row, labels).Err? ==> r == Err(Currents(t, row, labels).error)
    ensures r.Ok? ==> r.value.evaluation == Interpret(labels, r.value.chart.current, Evaluated(renderer, basis, labels, r.value.chart.reference)).value
  {
    match References(t, basis, labels)
    case Err(e) => Err(e)
    case Ok(refs) =>
      match Currents(t, row, labels)
      case Err(e) => Err(e)
      case Ok(cur) =>
        var names := SeriesNames(renderer, basis, groupLabel);
        match Interpret(labels, cur, Evaluated(renderer, basis, labels, refs))
        case Err(e) => Err(e)
        case Ok(text) => Ok(Section(Chart(title, labels, cur, refs, style, names.0, names.1), LegendText(labels), text))
  }

  /** The groups that get a section, in group order. */
  function EmittedGroups(renderer: Renderer, selectedGraphs: Option<seq<string>>, selected: seq<string>, groups: seq<GraphGroup>): (r: seq<GraphGroup>)
    ensures forall g :: g in r <==> g in groups && Emitted(renderer, selectedGraphs, selected, g)
    ensures Subsequence(r, groups)
  {
    Filter(groups, EmitTest(renderer, selectedGraphs, selected))
  }

  /** An emitted group has a section as often as GRAPH_GROUPS lists it; any other group has none. */
  lemma EmittedGroupsCount(renderer: Renderer, selectedGraphs: Option<seq<string>>, selected: seq<string>, groups: seq<GraphGroup>)
    ensures var r := EmittedGroups(renderer, selectedGraphs, selected, groups);
      forall g :: Count(r, g) == if Emitted(renderer, selectedGraphs, selected, g) then Count(groups, g) else 0
  {
    FilterCount(groups, EmitTest(renderer, selectedGraphs, selected));
  }

  /** Emitted as a test on groups. */
  function EmitTest(renderer: Renderer, selectedGraphs: Option<seq<string>>, selected: seq<string>): GraphGroup -> bool
  {
    g => Emitted(renderer, selectedGraphs, selected, g)
  }

  /** One more group adds itself when it is emitted. */
  lemma EmittedGroupsStep(renderer: Renderer, selectedGraphs: Option<seq<string>>, selected: seq<string>, groups: seq<GraphGroup>, i: nat)
    requires i < |groups|
    ensures EmittedGroups(renderer, selectedGraphs, selected, groups[..i + 1]) ==
      EmittedGroups(renderer, selectedGraphs, selected, groups[..i]) + (if Emitted(renderer, selectedGraphs, selected, groups[i]) then [groups[i]] else [])
  {
    assert groups[..i + 1][..i] == groups[..i];
  }

  /** The emitted groups of a list are those of its first `n` groups followed by those of the rest. */
  lemma EmittedGroupsSplit(renderer: Renderer, selectedGraphs: Option<seq<string>>, selected: seq<string>, groups: seq<GraphGroup>, n: nat)
    requires n <= |groups|
    ensures EmittedGroups(renderer, selectedGraphs, selected, groups) ==
      EmittedGroups(renderer, selectedGraphs, selected, groups[..n]) + EmittedGroups(renderer, selectedGraphs, selected, groups[n..])
  {
    assert groups == groups[..n] + groups[n..];
    FilterAppend(groups[..n], groups[n..], EmitTest(renderer, selectedGraphs, selected));
  }

  /** The section of each group of `gs`, failed or not. */
  function GroupResults(renderer: Renderer, t: Table, row: nat, selected: seq<string>, basis: Basis,
                        groupLabel: Option<string>, style: ChartStyle, gs: seq<GraphGroup>): (r: seq<Result<Section>>)
    requires WellFormed(t) && row < t.height
    ensures |r| == |gs| && forall k :: 0 <= k < |gs| ==>
      r[k] == GroupSection(renderer, t, row, basis, groupLabel, style, gs[k].title, Charted(gs[k].members, selected))
  {
    seq(|gs|, k requires 0 <= k < |gs| => GroupSection(renderer, t, row, basis, groupLabel, style, gs[k].title, Charted(gs[k].members, selected)))
  }

  lemma GroupResultsConcat(renderer: Renderer, t: Table, row: nat, selected: seq<string>, basis: Basis,
                           groupLabel: Option<string>, style: ChartStyle, a: seq<GraphGroup>, b: seq<GraphGroup>)
    requires WellFormed(t) && row < t.height
    ensures GroupResults(renderer, t, row, selected, basis, groupLabel, style, a + b) ==
      GroupResults(renderer, t, row, selected, basis, groupLabel, style, a) + GroupResults(renderer, t, row, selected, basis, groupLabel, style, b)
  {
    var r := GroupResults(renderer, t, row, selected, basis, groupLabel, style, a + b);
    var ra := GroupResults(renderer, t, row, selected, basis, groupLabel, style, a);
    var rb := GroupResults(renderer, t, row, selected, basis, groupLabel, style, b);
    forall k | 0 <= k < |r| ensures r[k] == (ra + rb)[k] {
      if k < |a| {
        assert (a + b)[k] == a[k] && (ra + rb)[k] == ra[k];
      } else {
        assert (a + b)[k] == b[k - |a|] && (ra + rb)[k] == rb[k - |a|];
      }
    }
  }

  /** The sections of the emitted groups, in group order; the first failing group ends the report. */
  function GroupSections(renderer: Renderer, t: Table, row: nat, selected: seq<string>, selectedGraphs: Option<seq<string>>,
                         basis: Basis, groupLabel: Option<string>, style: ChartStyle, groups: seq<GraphGroup>): (r: Result<seq<Section>>)
    requires WellFormed(t) && row < t.height
    ensures r.Ok? <==> forall g :: g in groups && Emitted(renderer, selectedGraphs, selected, g) ==>
      GroupSection(renderer, t, row, basis, groupLabel, style, g.title, Charted(g.members, selected)).Ok?
  {
    var emitted := EmittedGroups(renderer, selectedGraphs, selected, groups);
    var rs := GroupResults(renderer, t, row, selected, basis, groupLabel, style, emitted);
    assert forall k :: 0 <= k < |emitted| ==> emitted[k] in emitted;
    assert forall g :: g in emitted ==> exists k :: 0 <= k < |emitted| && emitted[k] == g;
    Collect(rs)
  }

  /** Word draws a group chart only for groups the caller selected: without a selection, none. */
  lemma WordGroupsNeedSelection(t: Table, row: nat, selected: seq<string>, basis: Basis, groupLabel: Option<string>,
                                style: ChartStyle, groups: seq<GraphGroup>)
    requires WellFormed(t) && row < t.height
    ensures GroupSections(Word, t, row, selected, None, basis, groupLabel, style, groups) == Ok([])
  {
    var emitted := EmittedGroups(Word, None, selected, groups);
    assert forall g :: !Emitted(Word, None, selected, g);
    assert emitted == [] by {
      if emitted != [] {
        HeadMember(emitted);
        assert false;
      }
    }
  }

  /**
    One section per emitted group, in group order: its title is the group's, its labels
    are the group's selected members in group order, and both series have one value
    per label.
  */
  lemma GroupSectionsShape(renderer: Renderer, t: Table, row: nat, selected: seq<string>, selectedGraphs: Option<seq<string>>,
                           basis: Basis, groupLabel: Option<string>, style: ChartStyle, groups: seq<GraphGroup>)
    requires WellFormed(t) && row < t.height
    requires GroupSections(renderer, t, row, selected, selectedGraphs, basis, groupLabel, style, groups).Ok?
    ensures Subsequence(EmittedGroups(renderer, selectedGraphs, selected, groups), groups)
    ensures |GroupSections(renderer, t, row, selected, selectedGraphs, basis, groupLabel, style, groups).value| ==
      |EmittedGroups(renderer, selectedGraphs, selected, groups)|
    ensures forall k :: 0 <= k < |GroupSections(renderer, t, row, selected, selectedGraphs, basis, groupLabel, style, groups).value| ==>
      && GroupSections(renderer, t, row, selected, selectedGraphs, basis, groupLabel, style, groups).value[k].chart.title ==
         EmittedGroups(renderer, selectedGraphs, selected, groups)[k].title
      && GroupSections(renderer, t, row, selected, selectedGraphs, basis, groupLabel, style, groups).value[k].chart.labels ==
         Charted(EmittedGroups(renderer, selectedGraphs, selected, groups)[k].members, selected) != []
      && |GroupSections(renderer, t, row, selected, selectedGraphs, basis, groupLabel, style, groups).value[k].chart.current| ==
         |GroupSections(renderer, t, row, selected, selectedGraphs, basis, groupLabel, style, groups).value[k].chart.labels| ==
         |GroupSections(renderer, t, row, selected, selectedGraphs, basis, groupLabel, style, groups).value[k].chart.reference|
  {
    var emitted := EmittedGroups(renderer, selectedGraphs, selected, groups);
    assert GroupSections(renderer, t, row, selected, selectedGraphs, basis, groupLabel, style, groups) ==
      Collect(GroupResults(renderer, t, row, selected, basis, groupLabel, style, emitted));
    CollectedGroups(renderer, t, row, selected, basis, groupLabel, style, emitted);
    forall k | 0 <= k < |emitted| ensures Charted(emitted[k].members, selected) != [] {
      assert emitted[k] in emitted;
    }
  }

  /** The sections collected for a list of groups follow the list, one chart per group. */
  lemma CollectedGroups(renderer: Renderer, t: Table, row: nat, selected: seq<string>,
                        basis: Basis, groupLabel: Option<string>, style: ChartStyle, gs: seq<GraphGroup>)
    requires WellFormed(t) && row < t.height
    requires Collect(GroupResults(renderer, t, row, selected, basis, groupLabel, style, gs)).Ok?
    ensures |Collect(GroupResults(renderer, t, row, selected, basis, groupLabel, style, gs)).value| == |gs|
    ensures forall k :: 0 <= k < |gs| ==>
      && Collect(GroupResults(renderer, t, row, selected, basis, groupLabel, style, gs)).value[k].chart.title == gs[k].title
      && Collect(GroupResults(renderer, t, row, selected, basis, groupLabel, style, gs)).value[k].chart.labels ==
         Charted(gs[k].members, selected)
      && |Collect(GroupResults(renderer, t, row, selected, basis, groupLabel, style, gs)).value[k].chart.current| ==
         |Collect(GroupResults(renderer, t, row, selected, basis, groupLabel, style, gs)).value[k].chart.labels| ==
         |Collect(GroupResults(renderer, t, row, selected, basis, groupLabel, style, gs)).value[k].chart.reference|
  {
    var rs := GroupResults(renderer, t, row, selected, basis, groupLabel, style, gs);
    var vs := Collect(rs).value;
    forall k | 0 <= k < |gs|
      ensures vs[k].chart.title == gs[k].title && vs[k].chart.labels == Charted(gs[k].members, selected)
      ensures |vs[k].chart.current| == |vs[k].chart.labels| == |vs[k].chart.reference|
    {
      assert rs[k] == Ok(vs[k]);
    }
  }

  /**
    Against the group average, with every charted column numeric and free of NaN,
    each group section can be built: every reference is the column's mean.
  */
  lemma GroupAverageSectionDefined(renderer: Renderer, t: Table, row: nat, groupLabel: Option<string>,
                                   style: ChartStyle, title: string, labels: seq<string>)
    requires WellFormed(t) && NoMissing(t) && row < t.height
    requires forall p :: p in labels ==> Numeric(t, p)
    ensures GroupSection(renderer, t, row, GroupAverage, groupLabel, style, title, labels).Ok?
  {
    var refs := References(t, GroupAverage, labels);
    assert forall k :: 0 <= k < |labels| ==> labels[k] in labels;
    var cur := Currents(t, row, labels).value;
    forall k | 0 <= k < |labels| ensures Difference(cur[k], refs.value[k]).Some? {
      assert labels[k] in labels;
    }
  }

  /** One more group: when emitted, its section joins the list, or its failure ends the report. */
  lemma GroupSectionsStep(renderer: Renderer, t: Table, row: nat, selected: seq<string>, selectedGraphs: Option<seq<string>>,
                          basis: Basis, groupLabel: Option<string>, style: ChartStyle, groups: seq<GraphGroup>, i: nat, sections: seq<Section>)
    requires WellFormed(t) && row < t.height && i < |groups|
    requires Collect(GroupResults(renderer, t, row, selected, basis, groupLabel, style, EmittedGroups(renderer, selectedGraphs, selected, groups[..i]))) == Ok(sections)
    ensures !Emitted(renderer, selectedGraphs, selected, groups[i]) ==>
      EmittedGroups(renderer, selectedGraphs, selected, groups[..i + 1]) == EmittedGroups(renderer, selectedGraphs, selected, groups[..i])
    ensures var g := groups[i];
      var s := GroupSection(renderer, t, row, basis, groupLabel, style, g.title, Charted(g.members, selected));
      Emitted(renderer, selectedGraphs, selected, g) && s.Ok? ==>
        Collect(GroupResults(renderer, t, row, selected, basis, groupLabel, style, EmittedGroups(renderer, selectedGraphs, selected, groups[..i + 1]))) == Ok(sections + [s.value])
    ensures var g := groups[i];
      var s := GroupSection(renderer, t, row, basis, groupLabel, style, g.title, Charted(g.members, selected));
      Emitted(renderer, selectedGraphs, selected, g) && s.Err? ==>
        GroupSections(renderer, t, row, selected, selectedGraphs, basis, groupLabel, style, groups) == Err(s.error)
  {
    var g := groups[i];
    EmittedGroupsStep(renderer, selectedGraphs, selected, groups, i);
    var emitted := EmittedGroups(renderer, selectedGraphs, selected, groups[..i]);
    if Emitted(renderer, selectedGraphs, selected, g) {
      var s := GroupSection(renderer, t, row, basis, groupLabel, style, g.title, Charted(g.members, selected));
      var before := GroupResults(renderer, t, row, selected, basis, groupLabel, style, emitted);
      GroupResultsConcat(renderer, t, row, selected, basis, groupLabel, style, emitted, [g]);
      CollectAppend(before, s);
      if s.Err? {
        var rest := EmittedGroups(renderer, selectedGraphs, selected, groups[i + 1..]);
        EmittedGroupsSplit(renderer, selectedGraphs, selected, groups, i + 1);
        GroupResultsConcat(renderer, t, row, selected, basis, groupLabel, style, emitted + [g], rest);
        CollectPrefixError(GroupResults(renderer, t, row, selected, basis, groupLabel, style, emitted + [g]),
                           GroupResults(renderer, t, row, selected, basis, groupLabel, style, rest));
      }
    }
  }

  /**
    `for nazev, popisky, _ in GRAPH_GROUPS` (analyza.py:328-377 and 502-545): the
    sections GroupSections gives, built group by group (the report passes GRAPH_GROUPS).
  */
  method BuildGroupSections(renderer: Renderer, t: Table, row: nat, selected: seq<string>, selectedGraphs: Option<seq<string>>,
                            basis: Basis, groupLabel: Option<string>, style: ChartStyle, groups: seq<GraphGroup>) returns (r: Result<seq<Section>>)
    requires WellFormed(t) && row < t.height
    ensures r == GroupSections(renderer, t, row, selected, selectedGraphs, basis, groupLabel, style, groups)
  {
    var sections: seq<Section> := [];
    var i := 0;
    assert groups[..0] == [];
    while i < |groups|
      invariant 0 <= i <= |groups|
      invariant Collect(GroupResults(renderer, t, row, selected, basis, groupLabel, style, EmittedGroups(renderer, selectedGraphs, selected, groups[..i]))) == Ok(sections)
    {
      var g := groups[i];
      GroupSectionsStep(renderer, t, row, selected, selectedGraphs, basis, groupLabel, style, groups, i, sections);
      var labels := Charted(g.members, selected);
      if Wanted(renderer, selectedGraphs, g.title) && labels != [] {
        var s := GroupSection(renderer, t, row, basis, groupLabel, style, g.title, labels);
        if s.Err? {
          return Err(s.error);
        }
        sections := sections + [s.value];
      }
      i := i + 1;
    }
    assert groups[..i] == groups;
    r := Ok(sections);
  }

  /**
    Word hands the interpretation the raw snapshot value: a ratio the snapshot lacks
    but can recompute is charted with the recomputed value and interpreted with None.
  */
  lemma WordSkipsRecomputation(t: Table, snapshot: map<string, Cell>, def: RatioDef, v: Cell)
    requires RatioNamed(def.name) == Some(def) && def.name !in snapshot
    requires def.numerator in snapshot && def.denominator in snapshot
    requires Divide(snapshot[def.numerator], snapshot[def.denominator]) == Some(v)
    ensures References(t, Historical(snapshot), [def.name]) == Ok([Some(v)])
    ensures RawSnapshotValues(snapshot, [def.name]) == [None]
  {
    assert HistoricalValue(snapshot, def.name) == Ok(Some(v));
    var refs := References(t, Historical(snapshot), [def.name]);
    assert ReferenceOf(t, Historical(snapshot), [def.name][0]) == Ok(Some(v));
    assert refs.Ok? && |refs.value| == 1 && refs.value[0] == Some(v);
    assert refs.value == [Some(v)];
  }

  /**
    So where the proband's own value of that ratio is a number, the PDF section of a
    group charting it is drawn and interpreted against the recomputed ratio ...
  */
  lemma PdfInterpretsRecomputedRatio(t: Table, row: nat, snapshot: map<string, Cell>, def: RatioDef, v: Cell,
                                     groupLabel: Option<string>, style: ChartStyle, title: string)
    requires WellFormed(t) && row < t.height
    requires RatioNamed(def.name) == Some(def) && def.name !in snapshot
    requires def.numerator in snapshot && def.denominator in snapshot
    requires Divide(snapshot[def.numerator], snapshot[def.denominator]) == Some(v)
    requires def.name in t.data && IsNumeric(t.data[def.name][row])
    ensures GroupSection(Pdf, t, row, Historical(snapshot), groupLabel, style, title, [def.name]).Ok?
  {
    WordSkipsRecomputation(t, snapshot, def, v);
    var cur := [t.data[def.name][row]];
    assert Currents(t, row, [def.name]).value == cur by {
      assert [def.name][0] == def.name;
    }
    assert Defined(cur, [Some(v)]) by {
      assert Difference(cur[0], Some(v)).Some?;
    }
  }

  /** ... while the Word section of the same group raises TypeError. */
  lemma WordFailsOnRawSnapshot(t: Table, row: nat, snapshot: map<string, Cell>, def: RatioDef, v: Cell,
                               groupLabel: Option<string>, style: ChartStyle, title: string)
    requires WellFormed(t) && row < t.height
    requires RatioNamed(def.name) == Some(def) && def.name !in snapshot
    requires def.numerator in snapshot && def.denominator in snapshot
    requires Divide(snapshot[def.numerator], snapshot[def.denominator]) == Some(v)
    requires def.name in t.data && IsNumeric(t.data[def.name][row])
    ensures GroupSection(Word, t, row, Historical(snapshot), groupLabel, style, title, [def.name]) == Err(TypeMismatch(def.name))
  {
    WordSkipsRecomputation(t, snapshot, def, v);
    var cur := [t.data[def.name][row]];
    assert Currents(t, row, [def.name]).value == cur by {
      assert [def.name][0] == def.name;
    }
    assert Evaluated(Word, Historical(snapshot), [def.name], [Some(v)]) == [None];
    assert Interpret([def.name], cur, [None]) == Err(TypeMismatch(def.name)) by {
      assert Sentences([def.name], cur, [None]) == Err(TypeMismatch(def.name));
    }
  }

  // ---------------------------------------------------------------------------
  // Sections of individually chosen variables

  /**
    The reference of an individually charted variable: the column's mean, or
    `comparison_data.get(var, 0)`, which neither recomputes ratios nor drops the
    variable (analyza.py:379-386).
  */
  function VariableReference(t: Table, basis: Basis, metric: string): (r: Result<Cell>)
    ensures basis.GroupAverage? ==> (r.Ok? <==> Numeric(t, metric)) && (r.Ok? ==> Some(r.value) == Mean(t.data[metric]))
    ensures basis.Historical? ==> r == Ok(if metric in basis.snapshot then basis.snapshot[metric] else Num(0.0))
  {
    match basis
    case Historical(snapshot) => Ok(if metric in snapshot then snapshot[metric] else Num(0.0))
    case GroupAverage =>
      if metric !in t.data then Err(MissingColumn(metric))
      else match Mean(t.data[metric])
        case None => Err(TypeMismatch(metric))
        case Some(m) => Ok(m)
  }

  /** The legend of an individually charted variable (analyza.py:399). */
  function VariableLegend(metric: string, currentLabel: string, referenceLabel: string): string
  {
    "Legenda: Graf proměnné " + metric + " zobrazuje hodnotu probanda (viz " + currentLabel
      + ") a průměr skupiny/historické měření (viz " + referenceLabel + ")."
  }

  /** The section of one variable: a one-bar chart, its legend and its one-sentence evaluation. */
  function VariableSection(t: Table, row: nat, basis: Basis, groupLabel: Option<string>, style: ChartStyle, metric: string): (r: Result<Section>)
    requires WellFormed(t) && row < t.height
    ensures r.Ok? ==> metric in t.data && r.value.chart.labels == [metric] && r.value.chart.current == [t.data[metric][row]]
    ensures r.Ok? ==> VariableReference(t, basis, metric).Ok? && r.value.chart.reference == [Some(VariableReference(t, basis, metric).value)]
    ensures r.Ok? ==> (Difference(t.data[metric][row], Some(VariableReference(t, basis, metric).value)).Some? &&
      r.value.evaluation == Sentence(metric, Difference(t.data[metric][row], Some(VariableReference(t, basis, metric).value)).value))
    ensures r.Ok? ==> (r.value.chart.currentLabel, r.value.chart.referenceLabel) == SeriesNames(Pdf, basis, groupLabel)
    ensures r.Ok? ==> r.value.chart.title == metric && r.value.chart.style == style
    ensures r.Ok? ==> r.value.legend == VariableLegend(metric, SeriesNames(Pdf, basis, groupLabel).0, SeriesNames(Pdf, basis, groupLabel).1)
    ensures r.Ok? <==>
      && VariableReference(t, basis, metric).Ok? && metric in t.data
      && Difference(t.data[metric][row], Some(VariableReference(t, basis, metric).value)).Some?
    ensures VariableReference(t, basis, metric).Err? ==> r == Err(VariableReference(t, basis, metric).error)
    ensures VariableReference(t, basis, metric).Ok? && metric !in t.data ==> r == Err(MissingColumn(metric))
    ensures VariableReference(t, basis, metric).Ok? && metric in t.data && r.Err? ==> r == Err(TypeMismatch(metric))
  {
    match VariableReference(t, basis, metric)
    case Err(e) => Err(e)
    case Ok(reference) =>
      if metric !in t.data then Err(MissingColumn(metric))
      else
        var cur := t.data[metric][row];
        var names := SeriesNames(Pdf, basis, groupLabel);
        match Interpret([metric], [cur], [Some(reference)])
        case Err(e) => Err(e)
        case Ok(text) => Ok(Section(Chart(metric, [metric], [cur], [Some(reference)], style, names.0, names.1),
                                    VariableLegend(metric, names.0, names.1), text))
  }

  /** The section of each variable of `metrics`, failed or not. */
  function VariableResults(t: Table, row: nat, basis: Basis, groupLabel: Option<string>, style: ChartStyle, metrics: seq<string>): (r: seq<Result<Section>>)
    requires WellFormed(t) && row < t.height
    ensures |r| == |metrics| && forall k :: 0 <= k < |metrics| ==> r[k] == VariableSection(t, row, basis, groupLabel, style, metrics[k])
  {
    seq(|metrics|, k requires 0 <= k < |metrics| => VariableSection(t, row, basis, groupLabel, style, metrics[k]))
  }

  /** The sections of `metrics`, in the order given, each that of its variable; the first failing one ends the report. */
  function VariableSections(t: Table, row: nat, basis: Basis, groupLabel: Option<string>, style: ChartStyle, metrics: seq<string>): (r: Result<seq<Section>>)
    requires WellFormed(t) && row < t.height
    ensures r.Ok? <==> forall k :: 0 <= k < |metrics| ==> VariableSection(t, row, basis, groupLabel, style, metrics[k]).Ok?
    ensures r.Ok? ==> |r.value| == |metrics| && forall k :: 0 <= k < |metrics| ==> Ok(r.value[k]) == VariableSection(t, row, basis, groupLabel, style, metrics[k])
  {
    Collect(VariableResults(t, row, basis, groupLabel, style, metrics))
  }

  /**
    A variable the snapshot does not hold is dropped from the results table but charted
    against 0: the two paths of the same report disagree (analyza.py:280 and 386).
  */
  lemma HistoricalDefaultsToZero(t: Table, row: nat, snapshot: map<string, Cell>, metric: string, style: ChartStyle)
    requires WellFormed(t) && row < t.height && metric in t.data
    requires metric !in snapshot && RatioNamed(metric).None?
    ensures HistoricalValue(snapshot, metric) == Ok(None)
    ensures VariableReference(t, Historical(snapshot), metric) == Ok(Num(0.0))
    ensures RowFor(t, row, metric, Historical(snapshot)) == Ok(None)
  {
  }

  /**
    The two IR/ER ratios are the exception: a ratio the snapshot lacks but can
    recompute from its inputs gets a table row against the recomputed value, yet its
    chart is still drawn against 0 (analyza.py:273-282 and 386).
  */
  lemma HistoricalRatioChartedAtZero(t: Table, row: nat, snapshot: map<string, Cell>, def: RatioDef, v: Cell)
    requires WellFormed(t) && row < t.height && def.name in t.data
    requires RatioNamed(def.name) == Some(def) && def.name !in snapshot
    requires def.numerator in snapshot && def.denominator in snapshot
    requires Divide(snapshot[def.numerator], snapshot[def.denominator]) == Some(v)
    ensures HistoricalValue(snapshot, def.name) == Ok(Some(v))
    ensures VariableReference(t, Historical(snapshot), def.name) == Ok(Num(0.0))
    ensures RowFor(t, row, def.name, Historical(snapshot)).Ok? <==> IsNumeric(t.data[def.name][row])
    ensures RowFor(t, row, def.name, Historical(snapshot)).Ok? ==>
      RowFor(t, row, def.name, Historical(snapshot)).value.Some? && RowFor(t, row, def.name, Historical(snapshot)).value.value.reference == v
  {
    assert HistoricalValue(snapshot, def.name) == Ok(Some(v));
  }

  /** One more variable: its section joins the list, or its failure ends the report. */
  lemma VariableSectionsStep(t: Table, row: nat, basis: Basis, groupLabel: Option<string>, style: ChartStyle, metrics: seq<string>, i: nat)
    requires WellFormed(t) && row < t.height && i < |metrics|
    ensures var s := VariableSection(t, row, basis, groupLabel, style, metrics[i]);
      Collect(VariableResults(t, row, basis, groupLabel, style, metrics[..i + 1])) ==
        match Collect(VariableResults(t, row, basis, groupLabel, style, metrics[..i]))
        case Err(e) => Err(e)
        case Ok(vs) => (match s case Err(e) => Err(e) case Ok(v) => Ok(vs + [v]))
    ensures var s := VariableSection(t, row, basis, groupLabel, style, metrics[i]);
      Collect(VariableResults(t, row, basis, groupLabel, style, metrics[..i])).Ok? && s.Err? ==>
        VariableSections(t, row, basis, groupLabel, style, metrics) == Err(s.error)
  {
    var rs := VariableResults(t, row, basis, groupLabel, style, metrics);
    VariableResultsPrefix(t, row, basis, groupLabel, style, metrics, i);
    VariableResultsPrefix(t, row, basis, groupLabel, style, metrics, i + 1);
    CollectStep(rs, i);
    if Collect(rs[..i]).Ok? && rs[i].Err? {
      CollectStepError(rs, i);
    }
  }

  /** The results of a prefix of the variables are a prefix of the results. */
  lemma VariableResultsPrefix(t: Table, row: nat, basis: Basis, groupLabel: Option<string>, style: ChartStyle, metrics: seq<string>, j: nat)
    requires WellFormed(t) && row < t.height && j <= |metrics|
    ensures VariableResults(t, row, basis, groupLabel, style, metrics[..j]) == VariableResults(t, row, basis, groupLabel, style, metrics)[..j]
  {
    var a := VariableResults(t, row, basis, groupLabel, style, metrics[..j]);
    var b := VariableResults(t, row, basis, groupLabel, style, metrics)[..j];
    forall k | 0 <= k < j ensures a[k] == b[k] {
      assert metrics[..j][k] == metrics[k];
    }
    SameElements(a, b);
  }

  /** `for var in selected_graph_vars` (analyza.py:379-405): the sections, one variable at a time. */
  method BuildVariableSections(t: Table, row: nat, basis: Basis, groupLabel: Option<string>, style: ChartStyle, metrics: seq<string>) returns (r: Result<seq<Section>>)
    requires WellFormed(t) && row < t.height
    ensures r == VariableSections(t, row, basis, groupLabel, style, metrics)
  {
    var sections: seq<Section> := [];
    for i := 0 to |metrics|
      invariant Collect(VariableResults(t, row, basis, groupLabel, style, metrics[..i])) == Ok(sections)
    {
      var s := VariableSection(t, row, basis, groupLabel, style, metrics[i]);
      VariableSectionsStep(t, row, basis, groupLabel, style, metrics, i);
      if s.Err? {
        return Err(s.error);
      }
      sections := sections + [s.value];
    }
    assert metrics[..|metrics|] == metrics;
    r := Ok(sections);
  }

  // ---------------------------------------------------------------------------
  // The closing recommendation

  /** `zaverecne_hodnoceni and zaverecne_hodnoceni.strip()`: a text that is not blank. */
  predicate HasClosing(closing: Option<string>)
  {
    closing.Some? && Strip(closing.value) != ""
  }

  /**
    The closing paragraphs: the stripped text split on blank lines, each paragraph
    stripped; the PDF also turns line breaks into `<br/>` (analyza.py:412), Word does
    not (analyza.py:575).
  */
  function ClosingParagraphs(renderer: Renderer, closing: Option<string>): (r: seq<string>)
    ensures !HasClosing(closing) ==> r == []
    ensures HasClosing(closing) ==> |r| == |SplitParagraphs(Strip(closing.value))|
    ensures HasClosing(closing) ==> forall k :: 0 <= k < |r| ==>
      r[k] == (if renderer == Pdf then BreakLines(Strip(SplitParagraphs(Strip(closing.value))[k])) else Strip(SplitParagraphs(Strip(closing.value))[k]))
  {
    if !HasClosing(closing) then []
    else
      var parts := SplitParagraphs(Strip(closing.value));
      if renderer == Pdf then BrokenParagraphs(parts) else StripEach(parts)
  }

  /** The PDF form of the paragraphs: each stripped, its line breaks as `<br/>`. */
  function BrokenParagraphs(parts: seq<string>): (r: seq<string>)
    ensures |r| == |parts| && forall k :: 0 <= k < |parts| ==> r[k] == BreakLines(Strip(parts[k]))
  {
    seq(|parts|, k requires 0 <= k < |parts| => BreakLines(Strip(parts[k])))
  }

  /**
    When every paragraph of the Word closing is already free of surrounding
    whitespace, joining the paragraphs with blank lines gives back the stripped text.
  */
  lemma WordClosingRoundTrip(closing: string)
    requires HasClosing(Some(closing))
    requires AllStripped(SplitParagraphs(Strip(closing)))
    ensures Join(ClosingParagraphs(Word, Some(closing)), "\n\n") == Strip(closing)
  {
    WordParagraphsUnchanged(closing);
    JoinSplitParagraphs(Strip(closing));
  }

  /** Word strips each paragraph, which leaves a paragraph without surrounding whitespace as it is. */
  lemma WordParagraphsUnchanged(closing: string)
    requires HasClosing(Some(closing))
    requires AllStripped(SplitParagraphs(Strip(closing)))
    ensures ClosingParagraphs(Word, Some(closing)) == SplitParagraphs(Strip(closing))
  {
    WordParagraphsStripped(closing);
    StripEachFixpoint(SplitParagraphs(Strip(closing)));
  }

  /** Word writes each blank-line part stripped, and nothing else. */
  lemma WordParagraphsStripped(closing: string)
    requires HasClosing(Some(closing))
    ensures ClosingParagraphs(Word, Some(closing)) == StripEach(SplitParagraphs(Strip(closing)))
  {
  }
}
