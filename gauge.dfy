/** The result gauge (src/GaugeChart.jsx): a half-doughnut of three
    coloured segments of 33, 33 and 34 out of 100, a padding segment that
    makes the data total 100, and a status text and colour for the score.
    The needle geometry and the canvas drawing are not modelled. */
module Gauge {

  const DataSegments: seq<int> := [33, 33, 34]
  const TotalGaugeValue: int := 100

  /** The arc colours of the segments, in order (green, yellow, red, grey). */
  const SegmentColors: seq<string> := ["#28a745", "#ffc107", "#dc3545", "#e5e7eb"]

  /** `reduce((a, b) => a + b, 0)`, folding from the left. */
  function SegmentTotal(s: seq<int>): int {
    if s == [] then 0 else SegmentTotal(s[..|s| - 1]) + s[|s| - 1]
  }

  /** The running totals of the segments: 33, 66 and 100. */
  lemma RunningTotals()
    ensures SegmentTotal(DataSegments[..1]) == 33
    ensures SegmentTotal(DataSegments[..2]) == 66
    ensures SegmentTotal(DataSegments[..3]) == SegmentTotal(DataSegments) == 100
  {
    var s1, s2 := DataSegments[..1], DataSegments[..2];
    assert s1 == [33] && s1[..0] == [];
    assert s2 == [33, 33] && s2[..1] == s1;
    assert DataSegments[..3] == DataSegments && DataSegments[..2] == s2;
  }

  /** The doughnut's data: the three segments and the padding segment. */
  function GaugeData(): seq<int> {
    DataSegments + [TotalGaugeValue - SegmentTotal(DataSegments)]
  }

  /** The three segments already fill the gauge, so the padding is 0 and
      the data totals 100. */
  lemma GaugeDataTotals100()
    ensures GaugeData() == [33, 33, 34, 0]
    ensures SegmentTotal(GaugeData()) == TotalGaugeValue
  {
    var d := GaugeData();
    RunningTotals();
    assert d[..3] == DataSegments;
  }

  /** `getStatusText`. */
  function StatusText(score: int): string {
    if score <= 33 then "Low Stress"
    else if score <= 66 then "Moderate Stress"
    else "High Stress"
  }

  /** `getStatusColor`. */
  function StatusColor(score: int): string {
    if score <= 33 then "#28a745"
    else if score <= 66 then "#ffc107"
    else "#dc3545"
  }

  /** The severity a status text names. */
  function TextSeverity(text: string): nat {
    if text == "Low Stress" then 0
    else if text == "Moderate Stress" then 1
    else 2
  }

  /** Text and colour always name the same band. */
  lemma TextAndColorAgree(score: int)
    ensures StatusText(score) == "Low Stress" <==> StatusColor(score) == "#28a745"
    ensures StatusText(score) == "Moderate Stress" <==> StatusColor(score) == "#ffc107"
    ensures StatusText(score) == "High Stress" <==> StatusColor(score) == "#dc3545"
  {
  }

  /** Each threshold belongs to the lower band. */
  lemma StatusBoundaries()
    ensures StatusText(33) == "Low Stress" && StatusText(34) == "Moderate Stress"
    ensures StatusText(66) == "Moderate Stress" && StatusText(67) == "High Stress"
  {
  }

  /** A higher score never shows a less severe status. */
  lemma {:induction false} StatusMonotone(a: int, b: int)
    requires a <= b
    ensures TextSeverity(StatusText(a)) <= TextSeverity(StatusText(b))
  {
    assert "Moderate Stress" != "Low Stress" && "High Stress" != "Low Stress";
    assert "High Stress" != "Moderate Stress";
  }

  /** The segment the needle points into at `score` (0 to 100): the first
      whose running total reaches the score. */
  function SegmentAt(score: int): (i: nat)
    requires 0 <= score <= TotalGaugeValue
    ensures i < |DataSegments|
    ensures score <= SegmentTotal(DataSegments[..i + 1])
    ensures i > 0 ==> SegmentTotal(DataSegments[..i]) < score
  {
    RunningTotals();
    if score <= SegmentTotal(DataSegments[..1]) then 0
    else if score <= SegmentTotal(DataSegments[..2]) then 1
    else 2
  }

  /** The status colour is the colour of the arc segment under the needle:
      the thresholds 33 and 66 are the segments' running totals. */
  lemma StatusColorIsSegmentColor(score: int)
    requires 0 <= score <= TotalGaugeValue
    ensures StatusColor(score) == SegmentColors[SegmentAt(score)]
  {
    RunningTotals();
  }
}
