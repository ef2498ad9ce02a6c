# Proband analysis reports — a Dafny model

`analyza.py` builds the reports of one proband (an athlete whose fitness is measured) from a table of
measurements, one row per measurement. It produces three outputs: a PDF report
(`generuj_analyzu`), a Word report (`generuj_word_report`) and a plain-text
briefing (`priprav_podklad`) that asks for a closing evaluation. The model follows
what each output does, in order:

1. Take a copy of the given table, or read the sheet (`load_data`, which builds the
   `Identifikace` column from `Jmeno`, `Prijmeni` and `Narozen`).
2. Clean up the headers.
3. Choose the columns.
4. Derive the two IR/ER rotation ratios (PDF and briefing only).
5. Zero-fill (`fillna(0)`).
6. Find the proband's first row.
7. Lay the output out: the results table against the group average or a historical
   snapshot, the extended statistics, the chart sections of the predefined groups
   and of single variables with their legends and evaluations (`interpretuj_graf`),
   and the closing recommendation.

Modules, one per file:

| file | module | what it holds |
|---|---|---|
| basics.dfy | `Basics` | Option, Result, the errors pandas raises, filtering, collecting per-item results |
| strings.dfy | `Strings` | strip, whitespace collapsing, the file-name sanitiser, paragraph splitting, padding, decimal digits |
| cells.dfy | `Cells` | a cell (NaN, number, duration, text), `format_val`, NaN-aware subtraction and division |
| frames.dfy | `Frames` | the table as a value, `Frame` (the working copy changed in place), `load_data`, the proband lookup |
| catalog.dfy | `Catalog` | `GRAPH_GROUPS`, the variable legends, the desired directions, the ratio definitions, the chart styles |
| stats.dfy | `Statistics` | the column mean, median, best, worst and the 2.5/97.5 percentiles |
| interpret.dfy | `Interpretation` | `interpretuj_graf` |
| derive.dfy | `Derivation` | the IR/ER ratio columns |
| prepare.dfy | `Front` | the shared front of the three outputs |
| comparison.dfy | `Comparison` | the rows of the results table |
| sections.dfy | `Sections` | group charts, single-variable charts, legends, the closing paragraphs |
| reports.dfy | `Reports` | the PDF element list, the Word block list, the briefing text |

Code that changes state keeps that form in the model:

- The working DataFrame is the class `Frames.Frame`. Its methods rename the headers,
  add a column and zero-fill it in place.
- The loops that build tables, legends, sections and element lists are methods with
  loop invariants.
- Each method is proved equal to a function. The properties are proved as lemmas
  about those functions.

## Model

| member | source | states |
|---|---|---|
| Basics.Filter | analyza.py:201 | a list comprehension keeps exactly the elements that satisfy its condition, in their input order (the result is a subsequence of the input), and is no longer than its input |
| Basics.FilterCount | analyza.py:201 | a kept element occurs in the result as often as in the input, a dropped one not at all |
| Basics.FilterAppend | analyza.py:328-333 | filtering a concatenation is concatenating the filtered parts |
| Basics.Collect | analyza.py:328-377 | a loop over items that may raise succeeds iff every item succeeds, and then yields every item's value in order |
| Basics.CollectFirstError | analyza.py:328-377 | when the loop raises, the error is that of the first failing item, and every item before it succeeded |
| Basics.CollectStepError | analyza.py:379-405 | when every item before the i-th succeeds and the i-th raises, the loop raises the i-th item's error |
| Strings.Strip | analyza.py:195 | `str.strip()` removes only leading and trailing whitespace and returns a contiguous slice with no whitespace at either end |
| Strings.StripIdempotent | analyza.py:195 | stripping twice is stripping once |
| Strings.StripEachFixpoint | analyza.py:574-575 | stripping parts that have no edge whitespace leaves them as they are |
| Strings.CollapseSpaces | analyza.py:195 | `replace("\s+", " ")` leaves no whitespace other than single plain spaces; the result is empty iff the input is; each end character is kept (a whitespace end as one space) |
| Strings.Words | analyza.py:195 | `str.split()`, by definition: the maximal runs of non-whitespace characters, in order; the reference the header clean-up is stated against |
| Strings.WordsStrip | analyza.py:195 | `strip()` keeps the words of a header (`split()`), in order |
| Strings.CollapseWords | analyza.py:195 | collapsing whitespace runs keeps the words, in order |
| Strings.NormalJoin | analyza.py:195 | a stripped text with single plain spaces is its words joined by one space |
| Strings.NormalizeHeader | analyza.py:195 | a cleaned header has no edge whitespace, no whitespace other than plain spaces, and no two spaces in a row |
| Strings.NormalizeHeaderJoin | analyza.py:195 | the clean-up keeps the words of the header in order and is exactly those words joined by single spaces |
| Strings.NormalizeHeaderIdempotent | analyza.py:195 | cleaning a cleaned header changes nothing |
| Strings.SanitizeName | analyza.py:25-27 | each of the nine characters a file name may not hold (backslash, slash, star, question mark, colon, double quote, angle brackets, vertical bar) becomes `_` and every other character stays; the length is kept |
| Strings.SanitizedIsClean | analyza.py:25-27 | a sanitised name holds no forbidden character |
| Strings.SanitizeIdempotent | analyza.py:25-27 | sanitising twice is sanitising once |
| Strings.SplitParagraphs | analyza.py:411 | `split("\n\n")` yields at least one part; no part holds a blank line, and no part but the last ends in a line break, so every cut is at the leftmost blank line (JoinSplitParagraphs: the parts and separators rebuild the text) |
| Strings.JoinSplitParagraphs | analyza.py:411 | joining the parts with `"\n\n"` gives the text back |
| Strings.BreakLines | analyza.py:412 | `replace("\n", "<br/>")`, by definition character by character; the three lemmas below state it |
| Strings.BreakLinesClean | analyza.py:412 | after `replace("\n", "<br/>")` no line break is left, and a text without one is unchanged |
| Strings.BreakLinesAppend | analyza.py:412 | the replacement works piece by piece: it distributes over concatenation |
| Strings.BreakLinesChar | analyza.py:412 | a line break becomes `<br/>` and every other character stays |
| Strings.PadRight | analyza.py:615 | `{s:30}` pads with spaces on the right up to the width and never truncates |
| Strings.PadLeft | analyza.py:622 | `{s:>10}` pads with spaces on the left up to the width and never truncates |
| Strings.DecimalRoundTrip | analyza.py:47 | the decimal digits of a natural number read back as that number |
| Cells.Hundredths | analyza.py:47 | the two-decimal rendering shows the magnitude rounded to the nearest hundredth |
| Cells.Fixed2RoundTrip | analyza.py:47 | the `:.2f` text of a number reads back as its sign and its hundredths |
| Cells.FormatVal | analyza.py:43-49 | `format_val`, by definition: a Timedelta as its seconds and a number with two decimals, NaN as `nan`, text as itself |
| Cells.FormatValReadsBack | analyza.py:43-49 | `format_val`: a duration is shown by its seconds and a number by its `:.2f` text (both read back), NaN as `nan`, text unchanged |
| Cells.CellText | analyza.py:40 | `str()` of a cell as `astype(str)` and the f-strings print it, by definition: text as itself, NaN as `nan`, a whole number as its digits, any other number with two decimals |
| Cells.Subtract | analyza.py:253 | a difference exists iff both cells are numeric (otherwise TypeError); it is NaN iff an operand is NaN; it adds back to the minuend |
| Cells.Divide | analyza.py:204 | a quotient exists iff both cells are numeric; it is a number iff both are numbers and the divisor is not 0; it multiplies back to the dividend |
| Frames.Filled | analyza.py:212 | `fillna(0)` keeps the columns, the height and the keys, and zero-fills every cell |
| Frames.FilledProperties | analyza.py:212 | the filled table is well formed, has no NaN, and each column keeps its numeric type |
| Frames.FilledIdempotent | analyza.py:212 | filling twice is filling once |
| Frames.NormalizedNames | analyza.py:195 | each header is cleaned in place |
| Frames.Normalized | analyza.py:195 | renaming succeeds iff no two cleaned headers clash; then every column keeps its cells under its cleaned name, with the height and the absence of NaN kept |
| Frames.Identity | analyza.py:40 | the identity key, by definition `Jmeno + " " + Prijmeni + ", " + Narozen`; IdentityInjective and IdentityCollision say when it determines its parts |
| Frames.IdentityInjective | analyza.py:40 | two identities are equal only for equal name, surname and birth date, when the name has no space and the surname no comma |
| Frames.IdentityCollision | analyza.py:40 | two different probands can share one identity ("Jan Karel"+"Novak" and "Jan"+"Karel Novak") |
| Frames.IdentityCells | analyza.py:40 | the identity column is `name + " " + surname + ", " + birth date`, row by row |
| Frames.LoadData | analyza.py:29-41 | KeyError iff a name, surname or birth-date column is missing, naming the first missing one; otherwise every other column is kept and the identity column is added |
| Frames.FirstIndexOf | analyza.py:213 | finds the first row holding the key, or states that none does |
| Frames.FindProband | analyza.py:213 | `df[df["Identifikace"] == id].iloc[0]` fails iff no row has the identity; otherwise it is the first such row |
| Frames.Frame.Copy | analyza.py:192 | the working copy starts equal to the given table |
| Frames.Frame.SetColumn | analyza.py:204 | `df[name] = cells` adds or replaces one column |
| Frames.Frame.FillMissing | analyza.py:212 | `fillna(0, inplace=True)` changes the frame into its filled table |
| Frames.Frame.NormalizeHeaders | analyza.py:195 | the headers are renamed as Normalized says, or the frame is unchanged and the clash is reported |
| Catalog.DirectionOf | analyza.py:168 | `desired_direction.get(label, "higher")` |
| Catalog.RatioColumnsDistinct | analyza.py:203-210 | the two ratio names differ from each other and from all four input columns |
| Catalog.RatioNamed | analyza.py:274-279 | only the two ratio names have a recomputation, and neither ratio is its own input |
| Catalog.StyleOf | analyza.py:97-133 | "line" and "scatter" pick those charts, and every other name falls back to bars |
| Catalog.GroupMembersDescribed | analyza.py:63-91 | every member of every predefined group has a legend and a desired direction |
| Catalog.GroupsDistinct | analyza.py:63-69 | group titles are distinct and no group lists a member twice |
| Catalog.RatiosAreMetrics | analyza.py:197-210 | the ratio names are not identity or personal columns |
| Statistics.Numbers | analyza.py:252 | the numbers of a column, NaN skipped; on a column of numbers they are its values in order |
| Statistics.Mean | analyza.py:252 | `mean()` exists iff the column is numeric (otherwise TypeError), and is NaN iff the column has no numbers |
| Statistics.MeanWithin | analyza.py:252 | the mean lies between any bounds of the column's numbers |
| Statistics.MeanOfConstant | analyza.py:252 | the mean of a constant column is that constant |
| Statistics.Sort | analyza.py:312 | sorting yields a sorted permutation |
| Statistics.Best | analyza.py:313 | `np.max` is a value of the column that bounds every value |
| Statistics.Worst | analyza.py:314 | `np.min` is a value of the column below every value |
| Statistics.Rank | analyza.py:315 | the linear-interpolation rank lies in `[0, n-1]` |
| Statistics.RankMonotone | analyza.py:315-316 | a larger percentile has a larger rank |
| Statistics.LerpBounds | analyza.py:315 | interpolating between two order statistics stays between them |
| Statistics.LerpMonotone | analyza.py:315 | interpolation grows with the fraction |
| Statistics.Percentile | analyza.py:315-316 | `np.percentile` with linear interpolation, by definition: the value at rank q(n-1)/100, interpolated between the two order statistics around it |
| Statistics.PercentileBetween | analyza.py:315-316 | `np.percentile` lies between the two order statistics around its rank |
| Statistics.PercentileMonotone | analyza.py:315-316 | a larger q never gives a smaller percentile |
| Statistics.Median | analyza.py:312 | `np.median` of sorted values, by definition: the middle value, or the mean of the two middle values |
| Statistics.MedianIsPercentile50 | analyza.py:312 | `np.median` equals the 50th percentile |
| Statistics.Summarize | analyza.py:311-316 | the five statistics exist iff the column is numeric, and are all NaN when the column holds a NaN |
| Statistics.StatsOrdered | analyza.py:311-316 | worst <= CI lower <= median <= CI upper <= best |
| Statistics.SummaryOrdered | analyza.py:311-317 | on a column of numbers the five are ordered, and best and worst are values of the column that bound all others |
| Statistics.SummaryOfOneRow | analyza.py:311-316 | one row gives one value for all five |
| Statistics.StatsColumns | analyza.py:308 | the extended-statistics columns are the selected names that are numeric columns, in selection order and with their multiplicity |
| Statistics.StatsRows | analyza.py:310-317 | one row per chosen column, in order |
| Statistics.StatsTable | analyza.py:309-317 | the header, then one row per column |
| Statistics.BuildStatsTable | analyza.py:306-317 | the loop builds the statistics table of the numeric selected columns |
| Interpretation.Judge | analyza.py:169-183 | the verdict of a difference: comparable iff `abs(diff) < 0.1`; otherwise improvement, needs improvement, undesirable or differs, by direction and sign, each as an if-and-only-if |
| Interpretation.Magnitude | analyza.py:176 | `abs(diff)` is non-negative and is the difference or its negation; NaN stays NaN |
| Interpretation.Sentence | analyza.py:169-183 | the comparable sentence when close; otherwise the label, the formatted magnitude and the verdict's wording |
| Interpretation.Difference | analyza.py:167 | `current - reference` exists iff the reference is present and both are numeric, and it adds back |
| Interpretation.Sentences | analyza.py:165-183 | every label has a sentence iff every difference is defined; the i-th sentence is that of the i-th label |
| Interpretation.SentencesError | analyza.py:167 | the error names the first label whose difference raises |
| Interpretation.Interpret | analyza.py:141-184 | the evaluation exists iff every difference is defined; it is empty for no labels and one sentence for one label |
| Interpretation.InterpretAppend | analyza.py:184 | the sentences of two label lists join with one space |
| Interpretation.SentencesAppend | analyza.py:165-183 | the sentences of concatenated lists are the concatenated sentences |
| Interpretation.ThresholdOverridesDirection | analyza.py:169-170 | a difference under 0.1 in magnitude is comparable, whatever the direction |
| Interpretation.LowerMirrorsHigher | analyza.py:172-181 | "lower" judges `-x` as "higher" judges `x` |
| Interpretation.ImprovementExample | analyza.py:174 | grip 48.5 against 45 reads "o 3.50 vyšší, což značí zlepšení" |
| Interpretation.ComparableExample | analyza.py:170 | equal values read as comparable |
| Derivation.DivideColumns | analyza.py:204 | column division succeeds iff every cell of both columns is numeric, and then divides row by row |
| Derivation.DerivedRatio | analyza.py:203-206 | with both inputs the ratio column is set to their quotient, or TypeError; without them the table is unchanged |
| Derivation.AddOnce | analyza.py:205-206 | the name is appended unless present; the old selection is a prefix; the name occurs once and no other count changes |
| Derivation.AddOnceIdempotent | analyza.py:205-206 | adding twice is adding once |
| Derivation.DerivedRatios | analyza.py:203-210 | both ratios, 210°/s then 300°/s: TypeError iff either division meets a non-number, naming the 210°/s ratio when that one fails; otherwise each ratio whose inputs exist is their quotient, every other column is kept with its cells, and the table stays well formed |
| Derivation.DerivedRatioFixed | analyza.py:204 | a ratio column already equal to the quotient is left as it is |
| Derivation.DerivedRatioIdempotent | analyza.py:203-206 | deriving a ratio again changes nothing |
| Derivation.DerivedRatiosIdempotent | analyza.py:203-210 | deriving both ratios again changes nothing |
| Derivation.DerivedRatioKeeps | analyza.py:204 | deriving a ratio leaves every other column as it was |
| Derivation.RatioExample | analyza.py:204 | 40 / 20 gives 2, printed "2.00" |
| Derivation.DeriveRatios | analyza.py:203-210 | on the frame: both steps change it as DerivedRatios says and the selection as SelectedAfter says; on TypeError the error is reported and the frame keeps the 210°/s ratio only when its division succeeded |
| Derivation.DeriveRatio | analyza.py:203-206 | one step on the frame and the selection; on TypeError the frame is unchanged |
| Front.Loaded | analyza.py:191-194 | the given table or the loaded sheet |
| Front.DefaultSelection | analyza.py:198-199 | without a selection, every column except the seven identity and personal ones, in column order and with its multiplicity |
| Front.ExistingOnly | analyza.py:201 | the PDF keeps only selected names that are columns, in selection order and with their multiplicity |
| Front.Derived | analyza.py:425-433 | Word derives nothing; the others derive both ratios |
| Front.Working | analyza.py:203-212 | the working table is derived, then zero-filled: no NaN remains |
| Front.Preparation | analyza.py:190-213 | a successful front gives a well-formed table and a row inside it |
| Front.PreparedFrom | analyza.py:197-213 | the front after the headers, with the same guarantee |
| Front.Prepare | analyza.py:190-213 | the front as run on a fresh copy changed in place equals Preparation |
| Front.PrepareFrame | analyza.py:197-213 | select, derive into the frame, zero-fill and look up, equal to PreparedFrom |
| Front.PreparationProperties | analyza.py:190-213 | on success: load and renaming succeeded, the table is the working table, the selection is the final selection, no NaN, and the row is the first with the proband's identity |
| Front.PdfSelectionExists | analyza.py:201-210 | every name the PDF ends up selecting is a column of its working table |
| Front.SelectionExtended | analyza.py:203-210 | the derivation keeps the selection as a prefix and appends only ratio names whose inputs exist |
| Front.WordTableUnderived | analyza.py:425-433 | Word's working table is the zero-filled input, and a given selection is used as it is |
| Front.DerivedRatioOfMissing | analyza.py:204 | a ratio over a NaN denominator is NaN before the fill |
| Front.RatioOfMissingIsZero | analyza.py:203-212 | because the ratios are derived before `fillna(0)`, such a ratio is 0 in the working table |
| Comparison.HistoricalValue | analyza.py:273-279 | the snapshot's value; for a missing ratio it is recomputed from the snapshot's inputs, or it is absent |
| Comparison.RecomputedRatioAgrees | analyza.py:274-279 | the recomputed ratio equals what a snapshot holding the ratio would give |
| Comparison.RowFor | analyza.py:246-282 | the row of one column, by definition: against the group, the mean and the difference, TypeError unless both exist; against a snapshot, nothing when HistoricalValue gives nothing, its error, or the difference, TypeError if it does not exist; RowForProperties states its properties |
| Comparison.RowForProperties | analyza.py:246-282 | a row holds the current value, the reference and their difference; against the group the reference is the mean and a numeric column always has a row; against a snapshot the row is skipped iff the snapshot has no value, and it raises iff the reference is text |
| Comparison.ComparisonRows | analyza.py:250-282 | the rows of the listed columns, in frame order, by definition: each listed column adds its RowFor row when there is one, and the first that raises fails the table; the next rows state its properties |
| Comparison.ComparisonRowsFail | analyza.py:250-282 | the table is built iff no listed column raises |
| Comparison.ComparisonRowsMetrics | analyza.py:270-282 | the rows' metrics are exactly the shown columns, in frame order |
| Comparison.ComparisonRowsEach | analyza.py:270-282 | each row is the row of its metric |
| Comparison.ErrorPersists | analyza.py:270-282 | once a column raises, later columns do not matter |
| Comparison.GroupRowsComplete | analyza.py:250-254 | against the group average on a zero-filled table the rows never raise |
| Comparison.HistoricalRatioDropped | analyza.py:274-282 | a ratio that the snapshot can neither give nor recompute gets no row |
| Comparison.HistoricalRowsShown | analyza.py:270-282 | against a snapshot a column gets a row iff it is listed and the snapshot supplies a value |
| Comparison.FormatRows | analyza.py:254 | one formatted row per row |
| Comparison.ComparisonTable | analyza.py:247-254 | the header of the basis, then one line per row |
| Comparison.BuildComparisonTable | analyza.py:245-293 | the loop builds the table of ComparisonRows, or raises its error |
| Sections.Wanted | analyza.py:329 | the `selected_graphs` test, by definition: the PDF wants every group when no selection is given, Word (analyza.py:502-504) wants none; otherwise a group is wanted iff its title is selected |
| Sections.Charted | analyza.py:331 | the group's members that are selected, in group order and with their multiplicity |
| Sections.Emitted | analyza.py:328-333 | a group gets a section iff it is wanted and keeps at least one selected member |
| Sections.SeriesNames | analyza.py:334-345 | "Proband" against the group label (PDF) or "Průměr skupiny"; the historical names against a snapshot |
| Sections.Currents | analyza.py:356 | the proband's values, or KeyError for a member that is not a column |
| Sections.ReferenceOf | analyza.py:335-354 | the column mean (TypeError unless numeric, KeyError if absent) or the snapshot's value |
| Sections.References | analyza.py:335-354 | the references of all members, in order, or the first error |
| Sections.RawSnapshotValues | analyza.py:543 | Word evaluates against the snapshot's raw values, with no recomputation |
| Sections.LegendText | analyza.py:365-368 | the group legend, by definition: `Legenda:` and a newline, then `label: description` and a newline for each described label, in label order |
| Sections.LegendSkipsUndescribed | analyza.py:366-368 | members without a legend add nothing to it |
| Sections.GroupLegendComplete | analyza.py:365-368 | in a predefined group every charted member has a legend line |
| Sections.BuildLegend | analyza.py:365-368 | the loop builds `Legenda:` followed by one line per described member |
| Sections.Evaluated | analyza.py:543 | what a group's interpretation compares against: for Word against a snapshot, the snapshot's raw values; otherwise the charted references; one per label |
| Sections.GroupSection | analyza.py:355-377 | a group's section exists iff its references, the proband's values and the evaluation exist, else it carries the first of those errors; it charts the title, members, values, references, style and series names, with the legend and the evaluation of the values against the references Word or the PDF uses |
| Sections.EmittedGroups | analyza.py:328-333 | the groups that are wanted and keep at least one selected member, in GRAPH_GROUPS order |
| Sections.EmittedGroupsCount | analyza.py:328-333 | an emitted group occurs among the emitted groups as often as in GRAPH_GROUPS, any other group not at all |
| Sections.GroupSections | analyza.py:328-377 | the group sections exist iff every emitted group's section does |
| Sections.WordGroupsNeedSelection | analyza.py:502 | without `selected_graphs`, Word draws no group chart |
| Sections.GroupSectionsShape | analyza.py:328-377 | one section per emitted group, in group order, charting its non-empty selected members with one value and one reference per member |
| Sections.GroupAverageSectionDefined | analyza.py:334-335 | against the group on a zero-filled table, a group of numeric members never raises |
| Sections.BuildGroupSections | analyza.py:328-377 | the loop over GRAPH_GROUPS yields GroupSections |
| Sections.WordSkipsRecomputation | analyza.py:541-544 | for a ratio the snapshot lacks but can recompute, the charted reference is the recomputed value while Word's evaluation gets an absent value |
| Sections.PdfInterpretsRecomputedRatio | analyza.py:341-377 | the PDF section of a group charting that ratio is built, evaluated against the recomputed value |
| Sections.WordFailsOnRawSnapshot | analyza.py:541-544 | the Word section of the same group raises TypeError naming the ratio |
| Sections.VariableReference | analyza.py:381-388 | the column mean, or the snapshot's value with 0 as the default |
| Sections.VariableLegend | analyza.py:399 | the legend sentence of one variable, by definition, naming the variable and the two series names |
| Sections.VariableSection | analyza.py:380-405 | a variable's section exists iff its reference exists, it is a column and its difference to the reference is defined; it charts the current value against the reference, with the PDF's series names, the legend sentence naming them, and the evaluation of their difference; otherwise the reference's error, KeyError or TypeError |
| Sections.VariableSections | analyza.py:380-405 | the sections exist iff every variable's section does, and then follow the variables in order |
| Sections.HistoricalDefaultsToZero | analyza.py:386 | a variable other than the two IR/ER ratios that is absent from the snapshot is charted against 0 yet gets no table row |
| Sections.HistoricalRatioChartedAtZero | analyza.py:273-282 | an IR/ER ratio the snapshot lacks but can recompute is charted against 0 (analyza.py:386), while its table row, present iff the proband's value is numeric, holds the recomputed value |
| Sections.BuildVariableSections | analyza.py:379-405 | the loop over `selected_graph_vars` yields VariableSections |
| Sections.HasClosing | analyza.py:407 | `zaverecne_hodnoceni and zaverecne_hodnoceni.strip()`, by definition: a recommendation is given and is not blank after stripping |
| Sections.ClosingParagraphs | analyza.py:407-414 | nothing for a blank recommendation; otherwise one stripped paragraph per blank-line part, with line breaks replaced in the PDF |
| Sections.WordClosingRoundTrip | analyza.py:572-575 | Word's paragraphs joined by blank lines give back the stripped recommendation when its paragraphs have no edge whitespace |
| Sections.WordParagraphsUnchanged | analyza.py:572-575 | when the paragraphs have no edge whitespace, Word's closing paragraphs are exactly the blank-line parts of the stripped text |
| Reports.FileName | analyza.py:215 | `analyza_<sanitised id>` plus the extension, with the id's length kept |
| Reports.Attribute | analyza.py:224 | a personal field is printed iff its column exists, otherwise KeyError |
| Reports.PersonalLines | analyza.py:224-226 | age, height and weight lines, or KeyError naming the first one missing |
| Reports.DateLine | analyza.py:229-241 | against the group, the line ends with the measurement date |
| Reports.BasisOf | analyza.py:229 | a snapshot makes a historical comparison; none means the group average |
| Reports.SectionElements | analyza.py:359-377 | a chart section as laid out, by definition: the PDF puts a page break, the bold title, the chart, a spacer, the legend, a spacer, "Vyhodnocení grafu:" and the evaluation; Word (analyza.py:533-545) a heading, the chart, the legend, "Vyhodnocení grafu:" and the evaluation |
| Reports.ClosingBody | analyza.py:407-414 | the closing as laid out, by definition: the PDF puts a page break, the bold heading and a spacer, then each paragraph followed by a spacer; Word (analyza.py:572-575) a level-3 heading, then one paragraph each |
| Reports.ReportTail | analyza.py:327-414 | the common end of both reports, by definition: the head, the group sections, the variable sections and the closing, or the first section that raises |
| Reports.PdfElements | analyza.py:217-414 | the PDF element list, by definition: the personal lines, the results table, its note and the statistics, then ReportTail; the first error ends it |
| Reports.PdfOutcome | analyza.py:186-418 | `generuj_analyzu` as a value, by definition: the prepared data, then PdfElements, under the name `analyza_<id>.pdf`; GeneratePdf is proved equal to it |
| Reports.GeneratePdf | analyza.py:186-418 | the PDF report: file name and element list, or the first error |
| Reports.PdfBody | analyza.py:217-414 | the element list from the prepared data |
| Reports.AppendTail | analyza.py:327-414 | the group sections, the variable sections and the closing appended to the head |
| Reports.WordElements | analyza.py:436-575 | the Word block list, by definition: as the PDF without the comparison note, spacers and page breaks |
| Reports.WordOutcome | analyza.py:420-579 | `generuj_word_report` as a value, by definition: the prepared data, then WordElements, under the name `analyza_<id>.docx`; GenerateWord is proved equal to it |
| Reports.GenerateWord | analyza.py:420-579 | the Word report: file name and block list, or the first error |
| Reports.WordBody | analyza.py:436-575 | the block list from the prepared data |
| Reports.HeadsNoCharts | analyza.py:219-325 | the opening, the tables and the statistics hold no chart |
| Reports.TailCharts | analyza.py:327-414 | the charts of the tail are the group charts, then the variable charts |
| Reports.PdfReportCharts | analyza.py:327-405 | the PDF's charts are exactly the group charts and then the variable charts, in order |
| Reports.WordReportCharts | analyza.py:502-570 | the same for Word, with no group chart when no group is selected |
| Reports.Dashes | analyza.py:607 | `"-" * n` |
| Reports.RowLines | analyza.py:622 | one padded line per row |
| Reports.AppendRowLines | analyza.py:614-639 | the loop appends the lines of ComparisonRows, or raises its error |
| Reports.BriefingText | analyza.py:605-650 | the briefing of prepared data, by definition: the title, the personal lines, the table header, one RowLine per ComparisonRows row and the instructions, joined with line breaks |
| Reports.Brief | analyza.py:581-650 | the briefing text, or the first error |
| Reports.BriefBody | analyza.py:605-650 | the briefing lines joined with line breaks |
| Reports.BriefingLine | analyza.py:622 | `f"{a:30} {b:>10} {c:>10} {d:>10}"`, by definition; the lemmas below state its layout and width |
| Reports.BriefingHeader | analyza.py:615 | the table header: "Parametr", "Aktuální", then "Průměr" against the group or "Historické" against a snapshot (analyza.py:624), then "Rozdíl" |
| Reports.RowLine | analyza.py:622 | one table row: the metric, then the current value, the reference and the difference as `format_val` prints them |
| Reports.BriefingLineLayout | analyza.py:622 | when the name fits in 30 characters and each value in 10, a line is 63 characters: the name left-aligned in columns 0-29, then the current value, the reference and the difference each right-aligned in 10 columns (31-40, 42-51, 53-62), with one space between fields |
| Reports.FieldPositions | analyza.py:622 | four fields of widths 30, 10, 10 and 10 joined by single spaces sit at those positions |
| Reports.BriefingAligned | analyza.py:615-622 | the header is 63 wide, and so is every row line whose name fits in 30 characters and whose values fit in 10 |
| Reports.BriefingLineWidth | analyza.py:622 | the padding never cuts: a line is as long as the name padded to 30 and each value padded to 10, or longer by whatever a field exceeds its width, plus three spaces |
| Reports.LongNameRowWider | analyza.py:615-622 | a row whose name exceeds 30 characters is longer than the header by at least the excess, and longer than the dash rule under the header |
| Reports.RotationRowWider | analyza.py:622 | the 36-character metric name of the concentric internal rotation at 210°/s, with values that fit in 10 characters, makes a 69-character row under the 63-character header |

## Left out

- `app.py` (the web interface that calls these functions) is not part of this model.
- Chart drawing (`generate_graph`, matplotlib): a chart is its title, labels, values, references, style and series names. Only the fallback of an unknown style to bars is modelled.
- Reading Excel files: a workbook is given as the table of the sheet `load_data` would read.
- Font registration, `OUTPUT_FOLDER`, `doc.build` and `document.save`: the reports are returned as element lists with their file name.
- Table styling, image sizes and heading levels other than the text: layout is not modelled.
- Logging.
- Floating point: cells hold exact reals. Division by 0 gives NaN rather than ±inf.
- Cells.Hundredths: rounds ties away from zero, while Python rounds the exact binary value half-even.
- Cells.CellText: approximates `str()` of a cell (integral numbers as integers, others with two decimals) for identities, personal lines and dates.
- Cells.FormatValReadsBack: text that `float()` could parse is shown as the text itself, not as a number.
- Durations in arithmetic are treated as TypeError. Timedelta arithmetic, comparison and means are not modelled.
- Frames.Normalized: two headers that clean up alike are reported as an error. pandas would keep duplicate columns.
- Aliasing of the caller's `selected_columns` list: `append` in the source changes the caller's list; the model returns a new selection.
- A literal `None` stored in a snapshot is not distinguished from a missing key.
- Sections.BuildGroupSections: takes the group list as a parameter. The reports pass GRAPH_GROUPS.
- Reports.PdfReportCharts: stated over the prepared data, not over the raw request.
- Reports.WordReportCharts: stated over the prepared data, not over the raw request.
- Reports.BriefingAligned: states the 63-character width only for rows whose name fits in 30 characters and whose values fit in 10; longer fields widen the row (Reports.BriefingLineWidth, Reports.LongNameRowWider), and the field positions are stated by Reports.BriefingLineLayout.
- The identity column is not a key: two probands can share an identity (Frames.IdentityCollision). The lookup takes the first match, as `iloc[0]` does.
- The IR/ER ratios are derived before `fillna(0)`: a NaN input gives a 0 ratio, not a ratio of filled values (Front.RatioOfMissingIsZero).
