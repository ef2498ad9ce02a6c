/**
  interpretuj_graf: one sentence per charted metric, judging the difference between
  the current value and the reference under the metric's desired direction, the
  sentences joined with single spaces.
*/
module Interpretation {
  import opened Basics
  import opened Strings
  import opened Cells
  import opened Catalog

  /** What a sentence says about one metric. */
  datatype Verdict =
    | Comparable        // within 0.1 of the reference, whatever the direction
    | Improvement       // moved the desired way
    | NeedsImprovement  // not above the reference where higher is better
    | Undesirable       // not below the reference where lower is better
    | Differs           // away from the reference where the reference is the optimum

  /** The difference is a number less than 0.1 away from zero (NaN never is). */
  predicate Close(diff: Cell)
  {
    diff.Num? && Abs(diff.x) < 0.1
  }

  /**
    The decision of analyza.py:169-183 for a difference that is a number or NaN
    (every comparison with NaN is false).
  */
  function Judge(d: Direction, diff: Cell): (v: Verdict)
    requires IsNumeric(diff)
    ensures v == Comparable <==> Close(diff)
    ensures v == Improvement <==> !Close(diff) && diff.Num? && ((d == Higher && diff.x > 0.0) || (d == Lower && diff.x < 0.0))
    ensures v == NeedsImprovement <==> !Close(diff) && d == Higher && !(diff.Num? && diff.x > 0.0)
    ensures v == Undesirable <==> !Close(diff) && d == Lower && !(diff.Num? && diff.x < 0.0)
    ensures v == Differs <==> !Close(diff) && d == Optimal
  {
    if Close(diff) then Comparable
    else match d
      case Higher => if diff.Num? && diff.x > 0.0 then Improvement else NeedsImprovement
      case Lower => if diff.Num? && diff.x < 0.0 then Improvement else Undesirable
      case Optimal => Differs
  }

  /** `abs(diff)`: the magnitude of a number; NaN stays NaN. */
  function Magnitude(diff: Cell): (m: Cell)
    requires IsNumeric(diff)
    ensures m.Missing? <==> diff.Missing?
    ensures m.Num? ==> m.x >= 0.0 && (m.x == diff.x || m.x == -diff.x)
  {
    if diff.Num? then Num(Abs(diff.x)) else diff
  }

  /** The opening every sentence about `metric` shares. */
  function Head(metric: string): string
  {
    "U '" + metric + "' je aktuální měření o "
  }

  /** The words after the amount, for each verdict other than Comparable. */
  function Tail(d: Direction, v: Verdict): string
  {
    match v
    case Improvement => if d == Lower then " nižší, což značí zlepšení." else " vyšší, což značí zlepšení."
    case NeedsImprovement => " nižší, což může naznačovat potřebu zlepšení."
    case Undesirable => " vyšší, což může být nežádoucí."
    case Differs => " odlišné od referenční hodnoty."
    case Comparable => ""
  }

  /** The sentence for a metric whose value is within 0.1 of the reference. */
  function ComparableSentence(metric: string): string
  {
    "U '" + metric + "' je hodnota aktuálního měření srovnatelná s referenční hodnotou."
  }

  /**
    One sentence of interpretuj_graf (analyza.py:166-183). Whichever of `diff` and
    `abs(diff)` the source prints, the amount shown is the magnitude of the difference
    with two decimals; the words after it name the verdict.
  */
  function Sentence(metric: string, diff: Cell): (s: string)
    requires IsNumeric(diff)
    ensures Close(diff) ==> s == ComparableSentence(metric)
    ensures !Close(diff) ==> s == Head(metric) + FormatVal(Magnitude(diff)) + Tail(DirectionOf(metric), Judge(DirectionOf(metric), diff))
  {
    var d := DirectionOf(metric);
    if Close(diff) then ComparableSentence(metric)
    else match d
      case Higher =>
        if diff.Num? && diff.x > 0.0 then
          assert Magnitude(diff) == diff;
          Head(metric) + FormatVal(diff) + " vyšší, což značí zlepšení."
        else Head(metric) + FormatVal(Magnitude(diff)) + " nižší, což může naznačovat potřebu zlepšení."
      case Lower =>
        if diff.Num? && diff.x < 0.0 then Head(metric) + FormatVal(Magnitude(diff)) + " nižší, což značí zlepšení."
        else
          assert Magnitude(diff) == diff;
          Head(metric) + FormatVal(diff) + " vyšší, což může být nežádoucí."
      case Optimal => Head(metric) + FormatVal(Magnitude(diff)) + " odlišné od referenční hodnoty."
  }

  /**
    `hodnoty_proband[i] - hodnoty_avg[i]`: None where Python raises TypeError, that is
    when the reference is None or either operand is not a number.
  */
  function Difference(current: Cell, reference: Option<Cell>): (r: Option<Cell>)
    ensures r.Some? <==> reference.Some? && IsNumeric(current) && IsNumeric(reference.value)
    ensures r.Some? ==> IsNumeric(r.value)
    ensures r.Some? && r.value.Num? ==> current.Num? && reference.value.Num? && r.value.x + reference.value.x == current.x
  {
    if reference.None? then None else Subtract(current, reference.value)
  }

  /** Every difference can be taken: no label raises TypeError. */
  predicate Defined(current: seq<Cell>, reference: seq<Option<Cell>>)
    requires |current| == |reference|
  {
    forall i :: 0 <= i < |current| ==> Difference(current[i], reference[i]).Some?
  }

  /**
    The sentences in label order; the TypeError of the first label whose difference
    cannot be taken ends the interpretation.
  */
  function Sentences(metrics: seq<string>, current: seq<Cell>, reference: seq<Option<Cell>>): (r: Result<seq<string>>)
    requires |current| == |metrics| && |reference| == |metrics|
    ensures r.Ok? <==> Defined(current, reference)
    ensures r.Ok? ==> |r.value| == |metrics|
    ensures r.Ok? ==> forall i :: 0 <= i < |metrics| ==> r.value[i] == Sentence(metrics[i], Difference(current[i], reference[i]).value)
  {
    if metrics == [] then Ok([])
    else match Difference(current[0], reference[0])
      case None => Err(TypeMismatch(metrics[0]))
      case Some(diff) =>
        match Sentences(metrics[1..], current[1..], reference[1..])
        case Err(e) => Err(e)
        case Ok(rest) =>
          assert Defined(current, reference) by {
            forall j | 0 <= j < |current| ensures Difference(current[j], reference[j]).Some? {
              if j > 0 {
                assert current[j] == current[1..][j - 1] && reference[j] == reference[1..][j - 1];
              }
            }
          }
          Ok([Sentence(metrics[0], diff)] + rest)
  }

  /** The TypeError names the first label whose difference cannot be taken. */
  lemma {:induction false} SentencesError(metrics: seq<string>, current: seq<Cell>, reference: seq<Option<Cell>>)
    requires |current| == |metrics| && |reference| == |metrics|
    requires Sentences(metrics, current, reference).Err?
    ensures exists i :: 0 <= i < |metrics| && Sentences(metrics, current, reference).error == TypeMismatch(metrics[i])
                          && Defined(current[..i], reference[..i]) && Difference(current[i], reference[i]).None?
    decreases |metrics|
  {
    var e := Sentences(metrics, current, reference).error;
    if Difference(current[0], reference[0]).None? {
      assert Defined(current[..0], reference[..0]);
    } else {
      SentencesError(metrics[1..], current[1..], reference[1..]);
      var i :| 0 <= i < |metrics| - 1 && e == TypeMismatch(metrics[1..][i])
                && Defined(current[1..][..i], reference[1..][..i]) && Difference(current[1..][i], reference[1..][i]).None?;
      assert Defined(current[..i + 1], reference[..i + 1]) by {
        forall j | 0 <= j < i + 1 ensures Difference(current[j], reference[j]).Some? {
          if j > 0 {
            assert current[j] == current[1..][..i][j - 1] && reference[j] == reference[1..][..i][j - 1];
          }
        }
      }
      assert metrics[i + 1] == metrics[1..][i] && current[i + 1] == current[1..][i] && reference[i + 1] == reference[1..][i];
    }
  }

  /**
    interpretuj_graf (analyza.py:141-184): the sentences joined by single spaces; a
    TypeError when some difference cannot be taken.
  */
  function Interpret(metrics: seq<string>, current: seq<Cell>, reference: seq<Option<Cell>>): (r: Result<string>)
    requires |current| == |metrics| && |reference| == |metrics|
    ensures r.Ok? <==> Defined(current, reference)
    ensures r.Ok? && metrics == [] ==> r.value == ""
    ensures r.Ok? && |metrics| == 1 ==> r.value == Sentence(metrics[0], Difference(current[0], reference[0]).value)
  {
    match Sentences(metrics, current, reference)
    case Err(e) => Err(e)
    case Ok(s) => Ok(Join(s, " "))
  }

  /**
    The text for a longer list of metrics is the text for its first part, a space,
    and the text for the rest: one sentence per metric, in label order.
  */
  lemma InterpretAppend(m1: seq<string>, c1: seq<Cell>, r1: seq<Option<Cell>>,
                        m2: seq<string>, c2: seq<Cell>, r2: seq<Option<Cell>>)
    requires |c1| == |m1| && |r1| == |m1| && |c2| == |m2| && |r2| == |m2|
    requires m1 != [] && m2 != []
    requires Interpret(m1, c1, r1).Ok? && Interpret(m2, c2, r2).Ok?
    ensures Interpret(m1 + m2, c1 + c2, r1 + r2) == Ok(Interpret(m1, c1, r1).value + " " + Interpret(m2, c2, r2).value)
  {
    var s1 := Sentences(m1, c1, r1).value;
    var s2 := Sentences(m2, c2, r2).value;
    SentencesAppend(m1, c1, r1, m2, c2, r2);
    JoinAppend(s1, s2, " ");
  }

  lemma {:induction false} SentencesAppend(m1: seq<string>, c1: seq<Cell>, r1: seq<Option<Cell>>,
                                           m2: seq<string>, c2: seq<Cell>, r2: seq<Option<Cell>>)
    requires |c1| == |m1| && |r1| == |m1| && |c2| == |m2| && |r2| == |m2|
    requires Sentences(m1, c1, r1).Ok? && Sentences(m2, c2, r2).Ok?
    ensures Sentences(m1 + m2, c1 + c2, r1 + r2) == Ok(Sentences(m1, c1, r1).value + Sentences(m2, c2, r2).value)
    decreases |m1|
  {
    if m1 == [] {
      EmptyAppend(m1, m2);
      EmptyAppend(c1, c2);
      EmptyAppend(r1, r2);
      EmptyAppend(Sentences(m1, c1, r1).value, Sentences(m2, c2, r2).value);
    } else {
      var diff := Difference(c1[0], r1[0]);
      assert diff.Some?;
      var rest1 := Sentences(m1[1..], c1[1..], r1[1..]);
      assert rest1.Ok?;
      SentencesAppend(m1[1..], c1[1..], r1[1..], m2, c2, r2);
      TailOfAppend(m1, m2);
      TailOfAppend(c1, c2);
      TailOfAppend(r1, r2);
      var head := [Sentence(m1[0], diff.value)];
      var s2 := Sentences(m2, c2, r2).value;
      assert Sentences(m1, c1, r1).value == head + rest1.value;
      assert Sentences(m1 + m2, c1 + c2, r1 + r2) == Ok(head + (rest1.value + s2));
      AppendAssoc(head, rest1.value, s2);
    }
  }

  /** A difference below the threshold gets the comparable sentence under every direction. */
  lemma ThresholdOverridesDirection(metric: string, x: real)
    requires -0.1 < x < 0.1
    ensures Sentence(metric, Num(x)) == ComparableSentence(metric)
    ensures forall d :: Judge(d, Num(x)) == Comparable
  {
  }

  /** The lower-is-better policy judges a difference as higher-is-better judges its negation. */
  lemma LowerMirrorsHigher(x: real)
    requires Abs(x) >= 0.1
    ensures Judge(Lower, Num(-x)) == Improvement <==> Judge(Higher, Num(x)) == Improvement
    ensures Judge(Lower, Num(-x)) == Undesirable <==> Judge(Higher, Num(x)) == NeedsImprovement
  {
  }

  /** A grip strength 3.5 above the reference reads as an improvement of "3.50". */
  lemma ImprovementExample()
    ensures Interpret(["Sila uchopu"], [Num(48.5)], [Some(Num(45.0))])
         == Ok(Head("Sila uchopu") + "3.50" + " vyšší, což značí zlepšení.")
  {
    assert Difference(Num(48.5), Some(Num(45.0))) == Some(Num(3.5));
    assert Hundredths(3.5) == 350;
    assert NatToDecimal(3) == "3";
    assert Digit(5) == '5' && Digit(0) == '0';
    assert Fixed2Text(3.5) == "3.50";
    assert FormatVal(Magnitude(Num(3.5))) == "3.50";
    assert DirectionOf("Sila uchopu") == Higher;
    assert Sentence("Sila uchopu", Num(3.5)) == Head("Sila uchopu") + "3.50" + " vyšší, což značí zlepšení.";
    var m, c, r := ["Sila uchopu"], [Num(48.5)], [Some(Num(45.0))];
    assert Defined(c, r);
    assert Interpret(m, c, r).Ok?;
    assert m[0] == "Sila uchopu" && Difference(c[0], r[0]).value == Num(3.5);
  }

  /** A metric equal to its reference reads as comparable. */
  lemma ComparableExample()
    ensures Interpret(["Sila uchopu"], [Num(45.0)], [Some(Num(45.0))])
         == Ok(ComparableSentence("Sila uchopu"))
  {
    assert Difference(Num(45.0), Some(Num(45.0))) == Some(Num(0.0));
    assert Close(Num(0.0));
    assert Sentence("Sila uchopu", Num(0.0)) == ComparableSentence("Sila uchopu");
    var m, c, r := ["Sila uchopu"], [Num(45.0)], [Some(Num(45.0))];
    assert Defined(c, r);
    assert Interpret(m, c, r).Ok?;
    assert m[0] == "Sila uchopu" && Difference(c[0], r[0]).value == Num(0.0);
  }
}
