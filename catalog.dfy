/**
  The static lookup data of the report pipeline: the predefined chart groups, the
  legend text of each metric, the desired direction of each metric, the two derived
  rotation ratios, the identification columns left out of the result tables, and the
  chart styles.
*/
module Catalog {
  import opened Basics

  /** A predefined chart group: its title, its member metrics in chart order, and its image name. */
  datatype GraphGroup = GraphGroup(title: string, members: seq<string>, image: string)

  const IR_ER_210: string := "IR/ER (210°/s)"
  const IR_ER_300: string := "IR/ER (300°/s)"
  const IR_CONC_210: string := "Vnitrni rotace koncentricka (210°/s)"
  const ER_CONC_210: string := "Vnejsi rotace koncentricka (210°/s)"
  const IR_CONC_300: string := "Vnitrni rotace koncentricka (300°/s)"
  const ER_CONC_300: string := "Vnejsi rotace koncentricka (300°/s)"

  /** GRAPH_GROUPS (analyza.py:63-69), in the order the reports emit them. */
  const GRAPH_GROUPS: seq<GraphGroup> := [
    GraphGroup("Poměr IR/ER", [IR_ER_210, IR_ER_300], "ir_er_ratio.png"),
    GraphGroup("Složení těla", ["Dominantni paze", "Dominantni paze - beztukova", "Dominantni noha",
      "Dominantni noha - beztukova", "Trupova hmotnost", "Trup - betukovy", "Beztukova hmota"], "body_composition.png"),
    GraphGroup("Síla úchopu a rychlost podání", ["Sila uchopu", "Rychlost podani"], "grip_speed.png"),
    GraphGroup("Vnitřní/Vnější rotace (210°/s)", [IR_CONC_210, ER_CONC_210,
      "Vnitrni rotace excentricka (210°/s)", "Vnejsi rotace excentricka (210°/s)"], "rotation_210.png"),
    GraphGroup("Vnitřní/Vnější rotace (300°/s)", [IR_CONC_300, ER_CONC_300,
      "Vnitrni rotace excentricka (300°/s)", "Vnejsi rotace excentricka (300°/s)"], "rotation_300.png")
  ]

  /** variable_legends (analyza.py:71-91): the description printed under a chart for each metric. */
  const VARIABLE_LEGENDS: map<string, string> := map[
    IR_ER_210 := "Poměr vnitřní rotace k vnější rotaci při rychlosti 210°/s.",
    IR_ER_300 := "Poměr vnitřní rotace k vnější rotaci při rychlosti 300°/s.",
    "Dominantni paze" := "Ukazuje sílu/velikost dominantní paže.",
    "Dominantni paze - beztukova" := "Hodnota beztukové hmoty dominantní paže.",
    "Dominantni noha" := "Ukazuje sílu/velikost dominantní nohy.",
    "Dominantni noha - beztukova" := "Hodnota beztukové hmoty dominantní nohy.",
    "Trupova hmotnost" := "Celková hmotnost trupu.",
    "Trup - betukovy" := "Hmotnost trupu bez tukové složky.",
    "Beztukova hmota" := "Celková beztuková hmota těla.",
    "Sila uchopu" := "Síla úchopu, důležitá pro kontrolu rakety.",
    "Rychlost podani" := "Rychlost podání, klíčová pro herní výkon.",
    IR_CONC_210 := "Izokinetická síla při vnitřní rotaci ramene, 210°/s.",
    ER_CONC_210 := "Izokinetická síla při vnější rotaci ramene, 210°/s.",
    "Vnitrni rotace excentricka (210°/s)" := "Izokinetická síla při vnitřní rotaci ramene, 210°/s.",
    "Vnejsi rotace excentricka (210°/s)" := "Izokinetická síla při vnější rotaci ramene, 210°/s.",
    IR_CONC_300 := "Izokinetická síla při vnitřní rotaci ramene, 300°/s.",
    ER_CONC_300 := "Izokinetická síla při vnější rotaci ramene, 300°/s.",
    "Vnitrni rotace excentricka (300°/s)" := "Izokinetická síla při vnitřní rotaci ramene, 300°/s.",
    "Vnejsi rotace excentricka (300°/s)" := "Izokinetická síla při vnější rotaci ramene, 300°/s."
  ]

  /** The policy by which a difference from the reference is judged. */
  datatype Direction = Higher | Lower | Optimal

  /** desired_direction (analyza.py:142-163). */
  const DESIRED_DIRECTION: map<string, Direction> := map[
    IR_CONC_210 := Higher,
    ER_CONC_210 := Higher,
    "Vnitrni rotace excentricka (210°/s)" := Higher,
    "Vnejsi rotace excentricka (210°/s)" := Higher,
    IR_CONC_300 := Higher,
    ER_CONC_300 := Higher,
    "Vnitrni rotace excentricka (300°/s)" := Higher,
    "Vnejsi rotace excentricka (300°/s)" := Higher,
    "Rychlost podani" := Higher,
    "Sila uchopu" := Higher,
    "Dominantni paze" := Higher,
    "Dominantni noha" := Higher,
    "Trupova hmotnost" := Optimal,
    "Telesny tuk" := Lower,
    "Dominantni paze - beztukova" := Higher,
    "Dominantni noha - beztukova" := Higher,
    "Trup - betukovy" := Optimal,
    "Beztukova hmota" := Higher,
    IR_ER_210 := Optimal,
    IR_ER_300 := Optimal
  ]

  /** `desired_direction.get(label, "higher")` (analyza.py:168). */
  function DirectionOf(metric: string): (d: Direction)
    ensures metric in DESIRED_DIRECTION ==> d == DESIRED_DIRECTION[metric]
    ensures metric !in DESIRED_DIRECTION ==> d == Higher
  {
    if metric in DESIRED_DIRECTION then DESIRED_DIRECTION[metric] else Higher
  }

  /** A derived metric: the column `name` is `numerator / denominator`, row by row. */
  datatype RatioDef = RatioDef(name: string, numerator: string, denominator: string)

  const RATIO_210: RatioDef := RatioDef(IR_ER_210, IR_CONC_210, ER_CONC_210)
  const RATIO_300: RatioDef := RatioDef(IR_ER_300, IR_CONC_300, ER_CONC_300)

  /** No ratio column is an input of either ratio, and the two ratios have different names. */
  lemma RatioColumnsDistinct()
    ensures RATIO_210.name != RATIO_300.name
    ensures RATIO_210.name != RATIO_300.numerator && RATIO_210.name != RATIO_300.denominator
    ensures RATIO_300.name != RATIO_210.numerator && RATIO_300.name != RATIO_210.denominator
    ensures RATIO_210.name != RATIO_210.numerator && RATIO_210.name != RATIO_210.denominator
    ensures RATIO_300.name != RATIO_300.numerator && RATIO_300.name != RATIO_300.denominator
  {
    assert RATIO_210.name[7] != RATIO_300.name[7];
    assert RATIO_210.name[0] != RATIO_300.numerator[0] && RATIO_210.name[0] != RATIO_300.denominator[0];
    assert RATIO_300.name[0] != RATIO_210.numerator[0] && RATIO_300.name[0] != RATIO_210.denominator[0];
    assert RATIO_210.name[0] != RATIO_210.numerator[0] && RATIO_210.name[0] != RATIO_210.denominator[0];
    assert RATIO_300.name[0] != RATIO_300.numerator[0] && RATIO_300.name[0] != RATIO_300.denominator[0];
  }

  /** The ratio derived under `name`, if `name` is one of the two ratio metrics. */
  function RatioNamed(name: string): (r: Option<RatioDef>)
    ensures r.Some? <==> name == IR_ER_210 || name == IR_ER_300
    ensures r.Some? ==> r.value.name == name && r.value.numerator != name && r.value.denominator != name
  {
    if name == IR_ER_210 then Some(RATIO_210)
    else if name == IR_ER_300 then Some(RATIO_300)
    else None
  }

  /** The identification and body columns that the result tables never list (analyza.py:197). */
  const DEFAULT_COLUMNS: seq<string> := ["Jmeno", "Prijmeni", "Narozen", "Identifikace", "Vek", "Vyska", "Hmotnost"]

  /** The chart styles generate_graph draws. */
  datatype ChartStyle = Bar | Line | Scatter

  /** The style a requested style name is drawn in: an unknown name falls back to a bar chart (analyza.py:97-133). */
  function StyleOf(name: string): (s: ChartStyle)
    ensures s == Line <==> name == "line"
    ensures s == Scatter <==> name == "scatter"
    ensures s == Bar <==> name != "line" && name != "scatter"
  {
    if name == "line" then Line
    else if name == "scatter" then Scatter
    else Bar
  }

  /** Every metric charted in a group has a legend line and a direction of its own. */
  lemma GroupMembersDescribed()
    ensures forall g, m :: g in GRAPH_GROUPS && m in g.members ==> m in VARIABLE_LEGENDS && m in DESIRED_DIRECTION
  {
    forall g, m | g in GRAPH_GROUPS && m in g.members
      ensures m in VARIABLE_LEGENDS && m in DESIRED_DIRECTION
    {
      var k :| 0 <= k < |GRAPH_GROUPS| && GRAPH_GROUPS[k] == g;
      assert k == 0 || k == 1 || k == 2 || k == 3 || k == 4;
    }
  }

  /** Group titles are distinct, and no group lists a metric twice. */
  lemma GroupsDistinct()
    ensures forall i, j :: 0 <= i < j < |GRAPH_GROUPS| ==> GRAPH_GROUPS[i].title != GRAPH_GROUPS[j].title
    ensures forall g :: g in GRAPH_GROUPS ==> Distinct(g.members)
  {
  }

  /** The ratio metrics are not identification columns, so the result tables may list them. */
  lemma RatiosAreMetrics()
    ensures IR_ER_210 !in DEFAULT_COLUMNS && IR_ER_300 !in DEFAULT_COLUMNS
    ensures RATIO_210.name != RATIO_300.name
  {
  }
}
