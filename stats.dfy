/**
  The statistics of the reports: a column's mean (Series.mean, NaN skipped), and the
  extended statistics of analyza.py:306-325: median, best (maximum), worst (minimum)
  and the 2.5th and 97.5th percentiles with numpy's linear interpolation.
*/
module Statistics {
  import opened Basics
  import opened Cells
  import opened Frames

  function Sum(xs: seq<real>): real
  {
    if xs == [] then 0.0 else Sum(xs[..|xs| - 1]) + xs[|xs| - 1]
  }

  /** The numbers among `cells`, in order; NaN is skipped. */
  function Numbers(cells: seq<Cell>): (r: seq<real>)
    ensures |r| <= |cells|
    ensures forall x :: x in r <==> Num(x) in cells
    ensures (forall i :: 0 <= i < |cells| ==> cells[i].Num?) ==> |r| == |cells| && forall i :: 0 <= i < |r| ==> r[i] == cells[i].x
  {
    if cells == [] then []
    else
      var init := Numbers(cells[..|cells| - 1]);
      var last := cells[|cells| - 1];
      assert forall x :: Num(x) in cells <==> Num(x) in cells[..|cells| - 1] || Num(x) == last by {
        assert cells == cells[..|cells| - 1] + [last];
      }
      if last.Num? then init + [last.x] else init
  }

  /** A sum of `n` terms between `lo` and `hi` lies between `n * lo` and `n * hi`. */
  lemma {:induction false} SumBounds(xs: seq<real>, lo: real, hi: real)
    requires forall i :: 0 <= i < |xs| ==> lo <= xs[i] <= hi
    ensures |xs| as real * lo <= Sum(xs) <= |xs| as real * hi
  {
    if xs != [] {
      var n := |xs| - 1;
      SumBounds(xs[..n], lo, hi);
      SumStep(n as real, Sum(xs[..n]), xs[n], lo, hi);
    }
  }

  /** The numbers of a column whose numbers lie between `lo` and `hi` lie between them. */
  lemma {:induction false} NumbersWithin(cells: seq<Cell>, lo: real, hi: real)
    requires forall i :: 0 <= i < |cells| && cells[i].Num? ==> lo <= cells[i].x <= hi
    ensures forall i :: 0 <= i < |Numbers(cells)| ==> lo <= Numbers(cells)[i] <= hi
  {
    if cells != [] {
      var k := |cells| - 1;
      NumbersWithin(cells[..k], lo, hi);
      var init := Numbers(cells[..k]);
      if cells[k].Num? {
        assert Numbers(cells) == init + [cells[k].x];
      }
    }
  }

  /** One more term between `lo` and `hi` keeps a sum of `n` such terms in its bounds. */
  lemma SumStep(n: real, total: real, x: real, lo: real, hi: real)
    requires n * lo <= total <= n * hi && lo <= x <= hi
    ensures (n + 1.0) * lo <= total + x <= (n + 1.0) * hi
  {
    assert (n + 1.0) * lo == n * lo + lo;
    assert (n + 1.0) * hi == n * hi + hi;
  }

  /**
    `Series.mean()`: the mean of the numbers, NaN skipped; NaN when the column holds
    no number; TypeError (None) when a cell is text or another object.
  */
  function Mean(cells: seq<Cell>): (r: Option<Cell>)
    ensures r.Some? <==> AllNumeric(cells)
    ensures r.Some? ==> IsNumeric(r.value) && (r.value.Missing? <==> Numbers(cells) == [])
  {
    if exists i :: 0 <= i < |cells| && !IsNumeric(cells[i]) then None
    else
      var xs := Numbers(cells);
      if xs == [] then Some(Missing) else Some(Num(Sum(xs) / |xs| as real))
  }

  /** The mean lies between any lower and upper bound of the numbers it averages. */
  lemma MeanWithin(cells: seq<Cell>, lo: real, hi: real)
    requires Mean(cells).Some? && Mean(cells).value.Num?
    requires forall i :: 0 <= i < |cells| && cells[i].Num? ==> lo <= cells[i].x <= hi
    ensures lo <= Mean(cells).value.x <= hi
  {
    var xs := Numbers(cells);
    assert xs != [] && Mean(cells).value.x == Sum(xs) / |xs| as real;
    NumbersWithin(cells, lo, hi);
    SumBounds(xs, lo, hi);
    Unscale(Sum(xs), |xs| as real, lo, hi);
  }

  /** A column holding one value throughout has that value as its mean. */
  lemma MeanOfConstant(cells: seq<Cell>, v: real)
    requires cells != [] && forall i :: 0 <= i < |cells| ==> cells[i] == Num(v)
    ensures Mean(cells) == Some(Num(v))
  {
    assert Num(v) in cells;
    assert v in Numbers(cells);
    MeanWithin(cells, v, v);
  }

  predicate Sorted(s: seq<real>)
  {
    forall i, j :: 0 <= i <= j < |s| ==> s[i] <= s[j]
  }

  /** `x` put into the sorted `s` before the first element not below it. */
  function Insert(x: real, s: seq<real>): (r: seq<real>)
    requires Sorted(s)
    ensures Sorted(r) && multiset(r) == multiset(s) + multiset{x} && |r| == |s| + 1
    ensures r[0] == x || (s != [] && r[0] == s[0])
  {
    if s == [] then [x]
    else if x <= s[0] then
      SortedCons(x, s);
      [x] + s
    else
      var rest := Insert(x, s[1..]);
      assert s == [s[0]] + s[1..];
      SortedCons(s[0], rest);
      [s[0]] + rest
  }

  /** A value not above the head of a sorted list, put in front of it, keeps it sorted. */
  lemma SortedCons(a: real, s: seq<real>)
    requires Sorted(s) && (s != [] ==> a <= s[0])
    ensures Sorted([a] + s)
  {
    var r := [a] + s;
    forall i, j | 0 <= i <= j < |r| ensures r[i] <= r[j] {
      if 0 < i {
        assert r[i] == s[i - 1] && r[j] == s[j - 1];
      } else if 0 < j {
        assert r[j] == s[j - 1] && s[0] <= s[j - 1];
      }
    }
  }

  /** The values in ascending order, as numpy sorts them before taking order statistics. */
  function Sort(s: seq<real>): (r: seq<real>)
    ensures Sorted(r) && multiset(r) == multiset(s) && |r| == |s|
  {
    if s == [] then []
    else
      assert s == s[..|s| - 1] + [s[|s| - 1]];
      Insert(s[|s| - 1], Sort(s[..|s| - 1]))
  }

  /** `np.max`: the largest value. */
  function Best(xs: seq<real>): (m: real)
    requires xs != []
    ensures m in xs && forall i :: 0 <= i < |xs| ==> xs[i] <= m
  {
    if |xs| == 1 then xs[0]
    else
      var rest := Best(xs[1..]);
      assert forall i :: 1 <= i < |xs| ==> xs[i] == xs[1..][i - 1];
      if xs[0] < rest then rest else xs[0]
  }

  /** `np.min`: the smallest value. */
  function Worst(xs: seq<real>): (m: real)
    requires xs != []
    ensures m in xs && forall i :: 0 <= i < |xs| ==> m <= xs[i]
  {
    if |xs| == 1 then xs[0]
    else
      var rest := Worst(xs[1..]);
      assert forall i :: 1 <= i < |xs| ==> xs[i] == xs[1..][i - 1];
      if rest < xs[0] then rest else xs[0]
  }

  /** The fractional rank `(n - 1) * q / 100` of the q-th percentile among `n` values. */
  function Rank(n: nat, q: real): (h: real)
    requires n >= 1 && 0.0 <= q <= 100.0
    ensures 0.0 <= h <= (n - 1) as real
  {
    RankBounds(n, q);
    (n - 1) as real * q / 100.0
  }

  lemma RankBounds(n: nat, q: real)
    requires n >= 1 && 0.0 <= q <= 100.0
    ensures 0.0 <= (n - 1) as real * q / 100.0 <= (n - 1) as real
  {
    ScaleMonotone((n - 1) as real, 0.0, q);
    ScaleMonotone((n - 1) as real, q, 100.0);
  }

  /** A larger q has a larger rank. */
  lemma RankMonotone(n: nat, q1: real, q2: real)
    requires n >= 1 && 0.0 <= q1 <= q2 <= 100.0
    ensures Rank(n, q1) <= Rank(n, q2)
  {
    ScaleMonotone((n - 1) as real, q1, q2);
  }

  /** Multiplying by a non-negative factor keeps the order. */
  lemma ScaleMonotone(m: real, a: real, b: real)
    requires m >= 0.0 && a <= b
    ensures m * a <= m * b
  {
    assert m * b - m * a == m * (b - a);
  }

  /** A fraction of a non-negative gap is at most the gap. */
  lemma FractionOfGap(f: real, d: real)
    requires 0.0 <= f <= 1.0 && d >= 0.0
    ensures 0.0 <= d * f
    ensures d * f <= d
  {
    assert d * f - d * 0.0 == d * (f - 0.0);
    assert d - d * f == d * (1.0 - f);
  }

  /** A total between `n * lo` and `n * hi`, with `n` positive, divided by `n` lies between `lo` and `hi`. */
  lemma Unscale(total: real, n: real, lo: real, hi: real)
    requires n > 0.0 && n * lo <= total <= n * hi
    ensures lo <= total / n <= hi
  {
    var m := total / n;
    assert m * n == total;
    assert (m - lo) * n == m * n - lo * n;
    assert (hi - m) * n == hi * n - m * n;
  }

  /** `a + (b - a) * f`: the point at fraction `f` of the way from `a` to `b`. */
  function Lerp(a: real, b: real, f: real): real
  {
    a + (b - a) * f
  }

  /** A fraction between 0 and 1 of the way from `a` to a larger `b` lies between them. */
  lemma LerpBounds(a: real, b: real, f: real)
    requires a <= b && 0.0 <= f <= 1.0
    ensures a <= Lerp(a, b, f) <= b
  {
    var d := b - a;
    FractionOfGap(f, d);
    assert 0.0 <= d * f <= d;
    assert Lerp(a, b, f) == a + d * f;
  }

  /** Going further from `a` towards a larger `b` never decreases the point. */
  lemma LerpMonotone(a: real, b: real, f1: real, f2: real)
    requires a <= b && f1 <= f2
    ensures Lerp(a, b, f1) <= Lerp(a, b, f2)
  {
    ScaleMonotone(b - a, f1, f2);
    var s1, s2 := (b - a) * f1, (b - a) * f2;
    assert s1 <= s2;
    assert Lerp(a, b, f1) == a + s1;
    assert Lerp(a, b, f2) == a + s2;
  }

  /** The floor of `h` is the integer at most `h` and within 1 of it. */
  lemma FloorBounds(h: real)
    ensures h.Floor as real <= h < h.Floor as real + 1.0
  {
  }

  /**
    `np.percentile(s, q)` on the sorted values, linear method: the value at fractional
    rank h, interpolated between the two order statistics around it.
  */
  function Percentile(s: seq<real>, q: real): real
    requires Sorted(s) && |s| >= 1 && 0.0 <= q <= 100.0
  {
    var h := Rank(|s|, q);
    var lo := h.Floor;
    if lo + 1 >= |s| then s[|s| - 1]
    else Lerp(s[lo], s[lo + 1], h - lo as real)
  }

  /** A percentile lies between the two order statistics around its rank. */
  lemma PercentileBetween(s: seq<real>, q: real)
    requires Sorted(s) && |s| >= 1 && 0.0 <= q <= 100.0
    ensures var lo := Rank(|s|, q).Floor;
      0 <= lo < |s| && s[lo] <= Percentile(s, q) && (lo + 1 < |s| ==> Percentile(s, q) <= s[lo + 1])
  {
    var h := Rank(|s|, q);
    FloorBounds(h);
    var lo := h.Floor;
    if lo + 1 < |s| {
      LerpBounds(s[lo], s[lo + 1], h - lo as real);
    }
  }

  /** A larger q never gives a smaller percentile. */
  lemma PercentileMonotone(s: seq<real>, q1: real, q2: real)
    requires Sorted(s) && |s| >= 1 && 0.0 <= q1 <= q2 <= 100.0
    ensures Percentile(s, q1) <= Percentile(s, q2)
  {
    var n := |s|;
    var h1, h2 := Rank(n, q1), Rank(n, q2);
    RankMonotone(n, q1, q2);
    FloorBounds(h1);
    FloorBounds(h2);
    var lo1, lo2 := h1.Floor, h2.Floor;
    PercentileBetween(s, q1);
    PercentileBetween(s, q2);
    if lo1 == lo2 {
      if lo1 + 1 < n {
        LerpMonotone(s[lo1], s[lo1 + 1], h1 - lo1 as real, h2 - lo2 as real);
      }
    } else {
      assert lo1 < lo2;
      assert s[lo1 + 1] <= s[lo2];
    }
  }

  /** `np.median`: the middle value, or the mean of the two middle values. */
  function Median(s: seq<real>): real
    requires Sorted(s) && |s| >= 1
  {
    var n := |s|;
    if n % 2 == 1 then s[n / 2] else (s[n / 2 - 1] + s[n / 2]) / 2.0
  }

  /** The median is the 50th percentile: both definitions numpy uses agree. */
  lemma MedianIsPercentile50(s: seq<real>)
    requires Sorted(s) && |s| >= 1
    ensures Median(s) == Percentile(s, 50.0)
  {
    var n := |s|;
    var h := Rank(n, 50.0);
    assert h == (n - 1) as real / 2.0;
    if n % 2 == 1 {
      var k := n / 2;
      assert n - 1 == 2 * k;
      assert h == k as real;
      assert h.Floor == k;
    } else {
      var k := n / 2 - 1;
      assert n - 1 == 2 * k + 1;
      assert h == k as real + 0.5;
      assert h.Floor == k;
    }
  }

  /** The extended statistics of one column. */
  datatype Summary = Summary(median: Cell, best: Cell, worst: Cell, ciLow: Cell, ciHigh: Cell)

  /**
    The statistics of analyza.py:311-316 for one column: numpy turns every statistic
    into NaN when a value is NaN, and raises TypeError (None) on text.
  */
  function Summarize(cells: seq<Cell>): (r: Option<Summary>)
    requires |cells| >= 1
    ensures r.Some? <==> AllNumeric(cells)
    ensures r.Some? && Missing in cells ==> r.value == Summary(Missing, Missing, Missing, Missing, Missing)
  {
    if exists i :: 0 <= i < |cells| && !IsNumeric(cells[i]) then None
    else if exists i :: 0 <= i < |cells| && cells[i].Missing? then Some(Summary(Missing, Missing, Missing, Missing, Missing))
    else
      assert cells[0].Num? && cells[0].x in Numbers(cells);
      Some(StatsOf(Numbers(cells)))
  }

  /** The five statistics of a non-empty list of numbers. */
  function StatsOf(xs: seq<real>): Summary
    requires xs != []
  {
    var s := Sort(xs);
    Summary(Num(Median(s)), Num(Best(xs)), Num(Worst(xs)), Num(Percentile(s, 2.5)), Num(Percentile(s, 97.5)))
  }

  /** worst <= CI lower <= median <= CI upper <= best, for any non-empty list of numbers. */
  lemma StatsOrdered(xs: seq<real>)
    requires xs != []
    ensures var r := StatsOf(xs);
      r.worst.x <= r.ciLow.x <= r.median.x <= r.ciHigh.x <= r.best.x
  {
    var s := Sort(xs);
    var n := |s|;
    MedianIsPercentile50(s);
    PercentileMonotone(s, 2.5, 50.0);
    PercentileMonotone(s, 50.0, 97.5);
    PercentileBetween(s, 2.5);
    PercentileBetween(s, 97.5);
    assert s[0] in multiset(xs) && s[n - 1] in multiset(xs) by {
      assert s[0] in multiset(s) && s[n - 1] in multiset(s);
    }
    assert s[0] <= Percentile(s, 2.5);
    assert Percentile(s, 97.5) <= s[n - 1];
  }

  /**
    On a column of numbers, worst <= CI lower <= median <= CI upper <= best, and best
    and worst are values of the column bounding all others.
  */
  lemma SummaryOrdered(cells: seq<Cell>)
    requires |cells| >= 1 && forall i :: 0 <= i < |cells| ==> cells[i].Num?
    ensures var r := Summarize(cells);
      && r.Some? && r.value.worst.Num? && r.value.ciLow.Num? && r.value.median.Num? && r.value.ciHigh.Num? && r.value.best.Num?
      && r.value.worst.x <= r.value.ciLow.x <= r.value.median.x <= r.value.ciHigh.x <= r.value.best.x
      && (forall i :: 0 <= i < |cells| ==> r.value.worst.x <= cells[i].x <= r.value.best.x)
      && Num(r.value.worst.x) in cells && Num(r.value.best.x) in cells
  {
    var xs := Numbers(cells);
    assert !exists i :: 0 <= i < |cells| && cells[i].Missing?;
    assert Summarize(cells) == Some(StatsOf(xs));
    StatsOrdered(xs);
    assert forall i :: 0 <= i < |cells| ==> cells[i].x == xs[i];
  }

  /** One row gives the same number for all five statistics. */
  lemma SummaryOfOneRow(v: real)
    ensures Summarize([Num(v)]) == Some(Summary(Num(v), Num(v), Num(v), Num(v), Num(v)))
  {
    var xs := Numbers([Num(v)]);
    assert xs == [v];
    assert Sort(xs) == [v];
    assert Rank(1, 2.5) == 0.0 && Rank(1, 97.5) == 0.0;
  }

  /** The header of the extended statistics table. */
  const STATS_HEADER: seq<string> := ["Parametr", "Medián", "Nejlepší", "Nejhorší", "CI (spodní)", "CI (horní)"]

  /** The selected columns that exist and are numeric, in selection order (analyza.py:308). */
  function StatsColumns(t: Table, selected: seq<string>): (r: seq<string>)
    ensures forall c :: c in r <==> c in selected && Numeric(t, c)
    ensures forall k :: 0 <= k < |r| ==> Numeric(t, r[k])
    ensures forall c :: Count(r, c) == if Numeric(t, c) then Count(selected, c) else 0
    ensures Subsequence(r, selected)
  {
    var keep := c => Numeric(t, c);
    FilterCount(selected, keep);
    var r := Filter(selected, keep);
    assert forall k :: 0 <= k < |r| ==> r[k] in r;
    r
  }

  /** A statistics line: the column name, then the five statistics of its cells through format_val. */
  function StatsRow(col: string, cells: seq<Cell>): seq<string>
    requires |cells| >= 1 && AllNumeric(cells)
  {
    var s := Summarize(cells).value;
    [col, FormatVal(s.median), FormatVal(s.best), FormatVal(s.worst), FormatVal(s.ciLow), FormatVal(s.ciHigh)]
  }

  /** Every listed column is a numeric column of a non-empty table. */
  ghost predicate NumericColumns(t: Table, cols: seq<string>)
  {
    WellFormed(t) && t.height >= 1 && forall k :: 0 <= k < |cols| ==> Numeric(t, cols[k])
  }

  /** One summary line per column, in column order. */
  function StatsRows(t: Table, cols: seq<string>): (r: seq<seq<string>>)
    requires NumericColumns(t, cols)
    ensures |r| == |cols| && forall k :: 0 <= k < |cols| ==> r[k] == StatsRow(cols[k], t.data[cols[k]])
  {
    if cols == [] then []
    else
      var n := |cols| - 1;
      NumericPrefix(t, cols, n);
      StatsRows(t, cols[..n]) + [StatsRow(cols[n], t.data[cols[n]])]
  }

  /** A prefix of numeric columns is numeric columns. */
  lemma NumericPrefix(t: Table, cols: seq<string>, n: nat)
    requires NumericColumns(t, cols) && n <= |cols|
    ensures NumericColumns(t, cols[..n])
  {
    forall k | 0 <= k < n ensures Numeric(t, cols[..n][k]) {
      assert cols[..n][k] == cols[k];
    }
  }

  /** The printed statistics table of `cols`: the header, then one line per column. */
  function StatsTable(t: Table, cols: seq<string>): (r: seq<seq<string>>)
    requires NumericColumns(t, cols)
    ensures |r| == |cols| + 1 && r[0] == STATS_HEADER
  {
    [STATS_HEADER] + StatsRows(t, cols)
  }

  /** One more column appends one more line. */
  lemma StatsTableStep(t: Table, cols: seq<string>, i: nat)
    requires NumericColumns(t, cols) && i < |cols|
    ensures NumericColumns(t, cols[..i]) && NumericColumns(t, cols[..i + 1])
    ensures StatsTable(t, cols[..i + 1]) == StatsTable(t, cols[..i]) + [StatsRow(cols[i], t.data[cols[i]])]
  {
    var pre := cols[..i + 1];
    assert NumericColumns(t, pre) by {
      forall k | 0 <= k < i + 1 ensures Numeric(t, pre[k]) {
        assert pre[k] == cols[k];
      }
    }
    assert pre[..i] == cols[..i];
    assert pre[i] == cols[i];
  }

  /**
    `table_data` of analyza.py:306-317: the header, then for every numeric selected
    column, in selection order, the line of its summary.
  */
  method BuildStatsTable(t: Table, selected: seq<string>) returns (table: seq<seq<string>>)
    requires WellFormed(t) && t.height >= 1
    ensures NumericColumns(t, StatsColumns(t, selected))
    ensures table == StatsTable(t, StatsColumns(t, selected))
  {
    var cols := StatsColumns(t, selected);
    table := [STATS_HEADER];
    assert cols[..0] == [];
    for i := 0 to |cols|
      invariant table == StatsTable(t, cols[..i])
    {
      StatsTableStep(t, cols, i);
      table := table + [StatsRow(cols[i], t.data[cols[i]])];
    }
    assert cols[..|cols|] == cols;
  }
}
