/**
 * The analytics section: the data points, each metric split at its first ':' into a label and
 * a trimmed value (with a numbered fallback label when there is no ':'), the visual components
 * and the implementation-logic paragraph.
 */
module AnalyticsSection {

  import opened Wrappers
  import opened JsValue
  import JsText

  /** The analytics data: two optional string lists and an optional paragraph. */
  datatype AnalyticsData = AnalyticsData(metrics: Option<seq<string>>, visuals: Option<seq<string>>, logic: Option<string>)

  /** One rendered data point. */
  datatype MetricView = MetricView(heading: string, value: string)

  /** The fallback label of the metric at position `i`: `Metric ${i + 1}`. */
  function FallbackLabel(i: nat): string {
    "Metric " + JsText.NatToString(i + 1)
  }

  /** The metric at position `i`, split at its first ':'; without a ':' the label is the numbered
      fallback and the value is the whole metric. */
  function Metric(m: string, i: nat): (v: MetricView)
    ensures ':' !in m ==> v == MetricView(FallbackLabel(i), m)
    ensures ':' in m ==> ':' !in v.heading && |v.heading| < |m| && m[..|v.heading|] == v.heading && m[|v.heading|] == ':'
    ensures ':' in m ==> v.value == JsText.Trim(m[|v.heading| + 1..])
  {
    match JsText.SplitFirst(m, ':')
    case None => MetricView(FallbackLabel(i), m)
    case Some((before, after)) =>
      assert m[..|before|] == before && m[|before| + 1..] == after;
      MetricView(before, JsText.Trim(after))
  }

  /** A heading without ':' followed by ':' and any text gives back that heading and the trimmed
      text, whatever the position. */
  lemma MetricOfJoined(heading: string, rest: string, i: nat)
    requires ':' !in heading
    ensures Metric(heading + ":" + rest, i) == MetricView(heading, JsText.Trim(rest))
  {
    JsText.SplitFirstOfJoined(heading, ':', rest);
  }

  /** Metrics without ':' at different positions get different fallback labels. */
  lemma FallbackLabelsDistinct(i: nat, j: nat)
    requires i != j
    ensures FallbackLabel(i) != FallbackLabel(j)
  {
    if FallbackLabel(i) == FallbackLabel(j) {
      var prefix := "Metric ";
      assert FallbackLabel(i)[|prefix|..] == JsText.NatToString(i + 1);
      assert FallbackLabel(j)[|prefix|..] == JsText.NatToString(j + 1);
      JsText.NatToStringValue(i + 1);
      JsText.NatToStringValue(j + 1);
    }
  }

  /** A fallback label never contains ':', so it cannot be mistaken for a colon prefix. */
  lemma FallbackLabelHasNoColon(i: nat)
    ensures ':' !in FallbackLabel(i)
  {
    var digits := JsText.NatToString(i + 1);
    forall k | 0 <= k < |FallbackLabel(i)|
      ensures FallbackLabel(i)[k] != ':'
    {
      if k >= 7 {
        assert FallbackLabel(i)[k] == digits[k - 7];
      }
    }
  }

  /** What the section renders: each block is present only when its data is. */
  datatype AnalyticsView = AnalyticsView(metrics: Option<seq<MetricView>>, visuals: Option<seq<string>>, logic: Option<string>)

  /** The section: nothing for null data; otherwise the data points when there are metrics, the
      visual components when there are visuals, and the logic paragraph when it is not empty. */
  function Render(data: Option<AnalyticsData>): (view: Option<AnalyticsView>)
    ensures view.None? <==> data.None?
    ensures view.Some? ==> (view.value.metrics.Some? <==> HasEntries(data.value.metrics))
    ensures view.Some? ==> (view.value.visuals.Some? <==> HasEntries(data.value.visuals))
    ensures view.Some? && view.value.visuals.Some? ==> view.value.visuals == data.value.visuals
    ensures view.Some? ==> (view.value.logic.Some? <==> TruthyText(data.value.logic))
    ensures view.Some? && view.value.logic.Some? ==> view.value.logic == data.value.logic
    ensures view.Some? && view.value.metrics.Some? ==> MetricsOf(data.value.metrics.value, view.value.metrics.value)
  {
    match data
    case None => None
    case Some(d) =>
      var metrics := if HasEntries(d.metrics) then Some(seq(|d.metrics.value|, k requires 0 <= k < |d.metrics.value| => Metric(d.metrics.value[k], k))) else None;
      var visuals := if HasEntries(d.visuals) then d.visuals else None;
      var logic := if TruthyText(d.logic) then d.logic else None;
      Some(AnalyticsView(metrics, visuals, logic))
  }

  /** `views` is `metrics.map((metric, i) => …)`: each metric split with its own position. */
  predicate MetricsOf(metrics: seq<string>, views: seq<MetricView>) {
    |views| == |metrics| && forall k :: 0 <= k < |metrics| ==> views[k] == Metric(metrics[k], k)
  }
}
