/** The statistics and chart series of the returning-user dashboard
    (src/ExistingUserHome.jsx), computed from the history the server
    returns, oldest first. The date labels are the records' `createdAt`
    times; their `toLocaleDateString` formatting is not modelled. */
module Dashboard {

  datatype HistoryItem = HistoryItem(createdAt: int, stressLevel: int)

  datatype DashboardView =
    | NoAssessmentsYet
    | Summary(
        labels: seq<int>,
        values: seq<int>,
        barColors: seq<string>,
        borderColors: seq<string>,
        latest: int,
        average: int,
        highest: int,
        lowest: int,
        total: nat)

  const GreenFill := "rgba(0, 200, 0, 0.6)"
  const YellowFill := "rgba(255, 206, 86, 0.6)"
  const RedFill := "rgba(255, 99, 132, 0.6)"
  const GreenBorder := "rgb(0, 200, 0)"
  const YellowBorder := "rgb(255, 206, 86)"
  const RedBorder := "rgb(255, 99, 132)"

  /** `getBarColor`. */
  function BarColor(value: int): string {
    if value <= 40 then GreenFill
    else if value <= 70 then YellowFill
    else RedFill
  }

  /** `getBorderColor`. */
  function BorderColor(value: int): string {
    if value <= 40 then GreenBorder
    else if value <= 70 then YellowBorder
    else RedBorder
  }

  /** A bar's fill and border always name the same colour band, and the
      bands are split at 40 and 70, each bound in the lower band. */
  lemma FillAndBorderAgree(value: int)
    ensures BarColor(value) == GreenFill <==> BorderColor(value) == GreenBorder
    ensures BarColor(value) == YellowFill <==> BorderColor(value) == YellowBorder
    ensures BarColor(value) == RedFill <==> BorderColor(value) == RedBorder
    ensures BarColor(value) == GreenFill <==> value <= 40
    ensures BarColor(value) == RedFill <==> value > 70
  {
  }

  function Sum(values: seq<int>): int {
    if values == [] then 0 else Sum(values[..|values| - 1]) + values[|values| - 1]
  }

  /** `Math.max(...values)`. */
  function Max(values: seq<int>): (m: int)
    requires |values| > 0
    ensures m in values
    ensures forall i :: 0 <= i < |values| ==> values[i] <= m
  {
    if |values| == 1 then values[0]
    else
      var m' := Max(values[..|values| - 1]);
      assert forall i :: 0 <= i < |values| - 1 ==> values[..|values| - 1][i] == values[i];
      if values[|values| - 1] > m' then values[|values| - 1] else m'
  }

  /** `Math.min(...values)`. */
  function Min(values: seq<int>): (m: int)
    requires |values| > 0
    ensures m in values
    ensures forall i :: 0 <= i < |values| ==> m <= values[i]
  {
    if |values| == 1 then values[0]
    else
      var m' := Min(values[..|values| - 1]);
      assert forall i :: 0 <= i < |values| - 1 ==> values[..|values| - 1][i] == values[i];
      if values[|values| - 1] < m' then values[|values| - 1] else m'
  }

  /** `Math.round(num / den)`: the nearest integer, halves rounded up. */
  function RoundedQuotient(num: int, den: int): (r: int)
    requires den > 0
    ensures 2 * den * r - den <= 2 * num < 2 * den * r + den
  {
    var q := (2 * num + den) / (2 * den);
    assert 2 * den * q <= 2 * num + den < 2 * den * q + 2 * den;
    q
  }

  /** The sum of `n` values between `lo` and `hi` lies between `n * lo` and `n * hi`. */
  lemma {:induction false} SumBounds(values: seq<int>, lo: int, hi: int)
    requires forall i :: 0 <= i < |values| ==> lo <= values[i] <= hi
    ensures |values| * lo <= Sum(values) <= |values| * hi
  {
    if values != [] {
      var init := values[..|values| - 1];
      assert forall i :: 0 <= i < |init| ==> init[i] == values[i];
      SumBounds(init, lo, hi);
      assert |values| * lo == |init| * lo + lo;
      assert |values| * hi == |init| * hi + hi;
    }
  }

  /** A mean rounded half-up stays between the bounds of what it averages. */
  lemma RoundedMeanBetween(sum: int, n: int, lo: int, hi: int)
    requires n > 0 && n * lo <= sum <= n * hi
    ensures lo <= RoundedQuotient(sum, n) <= hi
  {
    var r := RoundedQuotient(sum, n);
    var above, below := r - hi, lo - r;
    assert 2 * n * above == 2 * n * r - 2 * n * hi;
    assert 2 * n * below == 2 * n * lo - 2 * n * r;
    assert 2 * n * above <= n && 2 * n * below < n;
    ScaledBelowOne(n, above);
    ScaledBelowOne(n, below);
  }

  /** An integer `k` with `2 * n * k <= n` for positive `n` is not positive. */
  lemma ScaledBelowOne(n: int, k: int)
    requires n > 0 && 2 * n * k <= n
    ensures k <= 0
  {
  }

  function StressValues(history: seq<HistoryItem>): (values: seq<int>)
    ensures |values| == |history|
    ensures forall i :: 0 <= i < |history| ==> values[i] == history[i].stressLevel
  {
    seq(|history|, i requires 0 <= i < |history| => history[i].stressLevel)
  }

  /** The dashboard: the "no assessments yet" view for an empty history,
      otherwise the series and the summary cards. */
  function Summarize(history: seq<HistoryItem>): (d: DashboardView)
    ensures d.NoAssessmentsYet? <==> history == []
    ensures d.Summary? ==>
      && |d.labels| == |d.values| == |d.barColors| == |d.borderColors| == |history| == d.total
      && (forall i :: 0 <= i < |history| ==>
            && d.labels[i] == history[i].createdAt
            && d.values[i] == history[i].stressLevel
            && d.barColors[i] == BarColor(history[i].stressLevel)
            && d.borderColors[i] == BorderColor(history[i].stressLevel))
      && d.latest == history[|history| - 1].stressLevel
      && d.highest in d.values && d.lowest in d.values
      && (forall i :: 0 <= i < |history| ==> d.lowest <= d.values[i] <= d.highest)
      && d.lowest <= d.average <= d.highest
      && 2 * d.total * d.average - d.total <= 2 * Sum(d.values) < 2 * d.total * d.average + d.total
  {
    if history == [] then NoAssessmentsYet
    else
      var values := StressValues(history);
      var labels := seq(|history|, i requires 0 <= i < |history| => history[i].createdAt);
      var n := |values|;
      var highest, lowest := Max(values), Min(values);
      SumBounds(values, lowest, highest);
      RoundedMeanBetween(Sum(values), n, lowest, highest);
      Summary(
        labels,
        values,
        seq(n, i requires 0 <= i < n => BarColor(values[i])),
        seq(n, i requires 0 <= i < n => BorderColor(values[i])),
        values[n - 1],
        RoundedQuotient(Sum(values), n),
        highest,
        lowest,
        n)
  }

  /** Three assessments of 40, 60 and 20, in that order. */
  lemma ThreeAssessmentsExample(d1: int, d2: int, d3: int)
    ensures var d := Summarize([HistoryItem(d1, 40), HistoryItem(d2, 60), HistoryItem(d3, 20)]);
      && d.Summary?
      && d.latest == 20 && d.average == 40 && d.highest == 60 && d.lowest == 20 && d.total == 3
      && d.values == [40, 60, 20] && d.labels == [d1, d2, d3]
  {
    var d := Summarize([HistoryItem(d1, 40), HistoryItem(d2, 60), HistoryItem(d3, 20)]);
    var v: seq<int> := [40, 60, 20];
    assert d.values == v;
    assert v[..2] == [40, 60] && v[..2][..1] == [40] && [40][..0] == [];
    assert Sum(v) == 120;
  }

  /** Scores the schema admits (0 to 100) give statistics in the same range. */
  lemma StatisticsWithinScoreRange(history: seq<HistoryItem>)
    requires history != []
    requires forall i :: 0 <= i < |history| ==> 0 <= history[i].stressLevel <= 100
    ensures var d := Summarize(history);
      && 0 <= d.lowest && d.highest <= 100
      && 0 <= d.average <= 100 && 0 <= d.latest <= 100
  {
    var d := Summarize(history);
    assert d.lowest in d.values && d.highest in d.values;
  }
}
