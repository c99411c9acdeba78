/** The script's entry point: ingest the two folders, then derive the chart data. */
module Pipeline {
  import opened Opt
  import opened Ingest
  import opened Derive

  /** What the points of a chart say about the dictionary they came from. */
  ghost predicate PointsMatch(points: seq<DerivedPoint>, merged: Dict)
  {
    && (forall i, j :: 0 <= i < j < |points| ==> points[i].date < points[j].date)
    && (forall k :: k in merged.entries <==> exists i :: 0 <= i < |points| && points[i].date == k)
    && (forall i :: 0 <= i < |points| ==> RowOf(points[i]) == RowFor(merged, points[i].date))
  }

  /** Points that carry, position by position, the rows of an ingested table match its dictionary. */
  lemma {:induction false} PointsOfIngestedTable(points: seq<DerivedPoint>, df: seq<Record>, merged: Dict)
    requires StrictlyAscending(df)
    requires forall i :: 0 <= i < |df| ==> df[i] == RowFor(merged, df[i].date)
    requires forall k :: k in merged.entries <==> exists i :: 0 <= i < |df| && df[i].date == k
    requires |points| == |df| && forall i :: 0 <= i < |df| ==> RowOf(points[i]) == df[i]
    ensures PointsMatch(points, merged)
  {
    assert forall i :: 0 <= i < |points| ==> points[i].date == df[i].date;
    forall k | k in merged.entries ensures exists i :: 0 <= i < |points| && points[i].date == k {
      var i :| 0 <= i < |df| && df[i].date == k;
      assert points[i].date == k;
    }
  }

  /**
   * `plot_pr_graph(preprocess_data())`. No chart exactly when no file of
   * either folder was accepted; otherwise one point per accepted date, in
   * strictly ascending date order, carrying the merged GHI and PR of its date.
   */
  method Run(prFiles: seq<SourceFile>, ghiFiles: seq<SourceFile>, parse: DateParser)
    returns (chart: Option<Chart>)
    ensures chart.None? <==> NoneAccepted(prFiles, parse) && NoneAccepted(ghiFiles, parse)
    ensures chart.Some? ==> PointsMatch(chart.value.points, Merged(prFiles, ghiFiles, parse))
    ensures chart == PlotPrGraph(SortByDate(Rows(Merged(prFiles, ghiFiles, parse))))
  {
    var df := PreprocessData(prFiles, ghiFiles, parse);
    chart := PlotPrGraph(df);
    if df != [] {
      PlotOfAscendingTable(df);
      PointsOfIngestedTable(chart.value.points, df, Merged(prFiles, ghiFiles, parse));
    }
  }
}
