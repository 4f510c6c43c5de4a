/**
 * `pd.cut(values, bins=edges, labels=labels)` with pandas' defaults
 * (`right=True`, `include_lowest=False`): bin i is the interval
 * (edges[i], edges[i + 1]], open on the left and closed on the right, and a
 * value in no bin gets no label.  Used by `extract_from_date` to bucket the
 * hour of the day into the `day_time` category.
 */
module Binning {
  import opened Outcomes

  predicate StrictlyIncreasing(edges: seq<int>)
  {
    forall i, j :: 0 <= i < j < |edges| ==> edges[i] < edges[j]
  }

  /** The bin (edges[i], edges[i + 1]] that holds x, if any. */
  function BinIndex(x: int, edges: seq<int>): (r: Option<nat>)
    requires StrictlyIncreasing(edges)
    ensures r.Some? ==> r.value + 1 < |edges| && edges[r.value] < x <= edges[r.value + 1]
    ensures r.None? ==> forall i :: 0 <= i < |edges| - 1 ==> !(edges[i] < x <= edges[i + 1])
  {
    if |edges| < 2 then None
    else if edges[0] < x <= edges[1] then Some(0)
    else
      match BinIndex(x, edges[1..])
      case None => None
      case Some(i) => Some(i + 1)
  }

  /** Bins do not overlap: x is in bin i exactly when BinIndex says i. */
  lemma BinIndexExact(x: int, edges: seq<int>, i: nat)
    requires StrictlyIncreasing(edges) && i + 1 < |edges|
    ensures BinIndex(x, edges) == Some(i) <==> edges[i] < x <= edges[i + 1]
  {
    var r := BinIndex(x, edges);
    if edges[i] < x <= edges[i + 1] {
      assert r.Some?;
    }
  }

  /** The label of the bin holding x: what `pd.cut` puts in the row, None standing for a missing value. */
  function Cut<L>(x: int, edges: seq<int>, labels: seq<L>): Option<L>
    requires StrictlyIncreasing(edges) && |labels| == |edges| - 1
  {
    match BinIndex(x, edges)
    case None => None
    case Some(i) => Some(labels[i])
  }

  /** The labels `extract_from_date` gives the three hour bins. */
  const DayTimeLabels: seq<string> := ["morning", "afternoon", "night"]

  /** `pd.cut(hour, bins=[0, 12, 18, 23], labels=['morning', 'afternoon', 'night'])` for one row. */
  function DayTimeOf(hour: int): Option<string>
  {
    var edges := [0, 12, 18, 23];
    assert StrictlyIncreasing(edges);
    Cut(hour, edges, DayTimeLabels)
  }

  /**
   * Hours 1 to 12 are morning, 13 to 18 afternoon, 19 to 23 night; hour 0
   * lies left of the first, left-open bin and gets no label.
   */
  lemma HourBuckets(hour: int)
    requires 0 <= hour <= 23
    ensures DayTimeOf(hour) == None <==> hour == 0
    ensures DayTimeOf(hour) == Some("morning") <==> 1 <= hour <= 12
    ensures DayTimeOf(hour) == Some("afternoon") <==> 13 <= hour <= 18
    ensures DayTimeOf(hour) == Some("night") <==> 19 <= hour <= 23
  {
    var edges := [0, 12, 18, 23];
    assert StrictlyIncreasing(edges);
    BinIndexExact(hour, edges, 0);
    BinIndexExact(hour, edges, 1);
    BinIndexExact(hour, edges, 2);
  }
}
