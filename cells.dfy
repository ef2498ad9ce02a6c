/**
  One table cell and the arithmetic and formatting the pipeline applies to it:
  format_val's two-decimal rendering, str() of a cell, and subtraction and division
  with pandas' NaN propagation and Python's TypeError for non-numbers.
*/
module Cells {
  import opened Basics
  import opened Strings

  /** A DataFrame cell: NaN, a number, a pandas Timedelta (in seconds), or any other object as its text. */
  datatype Cell = Missing | Num(x: real) | Duration(seconds: real) | Text(s: string)

  /** A cell arithmetic accepts: a number or NaN. */
  predicate IsNumeric(c: Cell)
  {
    c.Num? || c.Missing?
  }

  /** Every cell is a number or NaN: a column numpy can compute with. */
  predicate AllNumeric(cells: seq<Cell>)
  {
    forall i :: 0 <= i < |cells| ==> IsNumeric(cells[i])
  }

  function Abs(x: real): real
  {
    if x < 0.0 then -x else x
  }

  /** |x| in hundredths, rounded to the nearest integer (halves upwards). */
  function Hundredths(x: real): (h: nat)
    ensures (h as real) - 0.5 <= Abs(x) * 100.0 < (h as real) + 0.5
  {
    (Abs(x) * 100.0 + 0.5).Floor as nat
  }

  /** f"{x:.2f}": the sign of `x`, the whole part of the rounded value, a point and two digits. */
  function Fixed2Text(x: real): string
  {
    var h := Hundredths(x);
    (if x < 0.0 then "-" else "") + NatToDecimal(h / 100) + ['.', Digit(h / 10 % 10), Digit(h % 10)]
  }

  /** Reads an unsigned two-decimal numeral back as its value in hundredths. */
  function ParseHundredths(body: string): Option<nat>
  {
    var n := |body|;
    if n >= 4 && body[n - 3] == '.' && AllDigits(body[..n - 3]) && IsDigit(body[n - 2]) && IsDigit(body[n - 1])
    then Some(DecimalValue(body[..n - 3]) * 100 + DigitValue(body[n - 2]) * 10 + DigitValue(body[n - 1]))
    else None
  }

  /**
    Reads a two-decimal numeral back: whether it is negative and its magnitude in
    hundredths; None for text of any other shape.
  */
  function ParseFixed2(s: string): Option<(bool, nat)>
  {
    var neg := |s| > 0 && s[0] == '-';
    match ParseHundredths(if neg then s[1..] else s)
    case None => None
    case Some(h) => Some((neg, h))
  }

  /** Text made of a digit string, a point and two digits reads back as the value in hundredths. */
  lemma ParseHundredthsOf(body: string, whole: string, d1: char, d2: char)
    requires |whole| >= 1 && AllDigits(whole) && IsDigit(d1) && IsDigit(d2)
    requires |body| == |whole| + 3 && body[..|whole|] == whole
    requires body[|whole|] == '.' && body[|whole| + 1] == d1 && body[|whole| + 2] == d2
    ensures ParseHundredths(body) == Some(DecimalValue(whole) * 100 + DigitValue(d1) * 10 + DigitValue(d2))
  {
  }

  /** A digit string, a point and two digits read back as the value in hundredths. */
  lemma ParseHundredthsParts(whole: string, d1: char, d2: char)
    requires |whole| >= 1 && AllDigits(whole) && IsDigit(d1) && IsDigit(d2)
    ensures ParseHundredths(whole + ['.', d1, d2]) == Some(DecimalValue(whole) * 100 + DigitValue(d1) * 10 + DigitValue(d2))
  {
    var body := whole + ['.', d1, d2];
    assert body[..|whole|] == whole;
    ParseHundredthsOf(body, whole, d1, d2);
  }

  /** A sign, then a numeral that does not start with '-', reads back with that sign. */
  lemma ParseFixed2Sign(neg: bool, body: string)
    requires body != [] && body[0] != '-'
    ensures ParseFixed2((if neg then "-" else "") + body) ==
      match ParseHundredths(body) case None => None case Some(h) => Some((neg, h))
  {
    var s := (if neg then "-" else "") + body;
    assert (|s| > 0 && s[0] == '-') == neg;
    assert (if neg then s[1..] else s) == body;
  }

  /** The hundreds, tens and units of `h` put together again. */
  lemma HundredthsDigits(h: nat)
    ensures (h / 100) * 100 + (h / 10 % 10) * 10 + h % 10 == h
  {
    assert h / 10 == (h / 100) * 10 + h / 10 % 10;
    assert h == (h / 10) * 10 + h % 10;
  }

  /**
    The two-decimal rendering loses only the rounding: it reads back as the sign of
    `x` and |x| to the nearest hundredth.
  */
  lemma Fixed2RoundTrip(x: real)
    ensures ParseFixed2(Fixed2Text(x)) == Some((x < 0.0, Hundredths(x)))
  {
    var h := Hundredths(x);
    var d1, d2 := Digit(h / 10 % 10), Digit(h % 10);
    var whole := NatToDecimal(h / 100);
    var body := whole + ['.', d1, d2];
    assert IsDigit(whole[0]);
    ParseHundredthsParts(whole, d1, d2);
    ParseFixed2Sign(x < 0.0, body);
    assert Fixed2Text(x) == (if x < 0.0 then "-" else "") + body;
    DecimalRoundTrip(h / 100);
    DigitValueOf(h / 10 % 10);
    DigitValueOf(h % 10);
    HundredthsDigits(h);
  }

  /**
    format_val (analyza.py:43-49): a Timedelta as its seconds and a number with two
    decimals; NaN prints as "nan" and anything float() refuses as its own text.
  */
  function FormatVal(v: Cell): string
  {
    match v
    case Missing => "nan"
    case Num(x) => Fixed2Text(x)
    case Duration(sec) => Fixed2Text(sec)
    case Text(s) => s
  }

  /**
    What format_val prints reads back as the sign and the hundredths of the number
    (or of the seconds of a Timedelta); NaN prints as "nan" and text as itself.
  */
  lemma FormatValReadsBack(v: Cell)
    ensures v.Num? ==> ParseFixed2(FormatVal(v)) == Some((v.x < 0.0, Hundredths(v.x)))
    ensures v.Duration? ==> ParseFixed2(FormatVal(v)) == Some((v.seconds < 0.0, Hundredths(v.seconds)))
    ensures v.Missing? ==> FormatVal(v) == "nan"
    ensures v.Text? ==> FormatVal(v) == v.s
  {
    match v
    case Missing =>
    case Num(x) => Fixed2RoundTrip(x);
    case Duration(sec) => Fixed2RoundTrip(sec);
    case Text(s) =>
  }

  /** The decimal text of an integer. */
  function IntToDecimal(n: int): string
  {
    if n < 0 then "-" + NatToDecimal(-n) else NatToDecimal(n)
  }

  /**
    str() of a cell, as f-strings and `.astype(str)` print it: text as it is, NaN as
    "nan", a whole number as its digits, any other number with two decimals.
  */
  function CellText(c: Cell): string
  {
    match c
    case Missing => "nan"
    case Num(x) => if x == x.Floor as real then IntToDecimal(x.Floor) else Fixed2Text(x)
    case Duration(sec) => Fixed2Text(sec)
    case Text(s) => s
  }

  /**
    `a - b` on two cells: numbers subtract, NaN propagates, and anything else raises
    TypeError (None).
  */
  function Subtract(a: Cell, b: Cell): (r: Option<Cell>)
    ensures r.Some? <==> IsNumeric(a) && IsNumeric(b)
    ensures r.Some? ==> IsNumeric(r.value) && (r.value.Num? <==> a.Num? && b.Num?)
    ensures r.Some? && r.value.Num? ==> r.value.x + b.x == a.x
  {
    if a.Num? && b.Num? then Some(Num(a.x - b.x))
    else if IsNumeric(a) && IsNumeric(b) then Some(Missing)
    else None
  }

  /**
    `a / b` on two cells: numbers divide, NaN propagates, anything else raises
    TypeError (None). A zero denominator gives NaN here (pandas gives +-inf unless the
    numerator is also zero).
  */
  function Divide(a: Cell, b: Cell): (r: Option<Cell>)
    ensures r.Some? <==> IsNumeric(a) && IsNumeric(b)
    ensures r.Some? ==> IsNumeric(r.value) && (r.value.Num? <==> a.Num? && b.Num? && b.x != 0.0)
    ensures r.Some? && r.value.Num? ==> r.value.x * b.x == a.x
  {
    if a.Num? && b.Num? && b.x != 0.0 then Some(Num(a.x / b.x))
    else if IsNumeric(a) && IsNumeric(b) then Some(Missing)
    else None
  }

  /** fillna(0) on one cell. */
  function ZeroFill(c: Cell): Cell
  {
    if c.Missing? then Num(0.0) else c
  }
}
