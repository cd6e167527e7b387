/**
 * The problem-statement section: the summary paragraph and the pain points, each split at its
 * first ':' into a bold title and a trimmed body.
 */
module ProblemSection {

  import opened Wrappers
  import opened JsValue
  import JsText

  /** The problem data: an optional summary and an optional list of pain points. */
  datatype ProblemData = ProblemData(summary: Option<string>, painPoints: Option<seq<string>>)

  /** One rendered pain point: the title when the point had a ':', and the body. */
  datatype PainPointView = PainPointView(title: Option<string>, body: string)

  /** A pain point split at its first ':'; without a ':' there is no title and the body is the
      whole point. */
  function PainPoint(p: string): (v: PainPointView)
    ensures v.title.None? <==> ':' !in p
    ensures v.title.None? ==> v.body == p
    ensures v.title.Some? ==> ':' !in v.title.value && |v.title.value| < |p|
    ensures v.title.Some? ==> p[..|v.title.value|] == v.title.value && p[|v.title.value|] == ':'
    ensures v.title.Some? ==> v.body == JsText.Trim(p[|v.title.value| + 1..])
  {
    match JsText.SplitFirst(p, ':')
    case None => PainPointView(None, p)
    case Some((before, after)) =>
      assert p[..|before|] == before && p[|before| + 1..] == after;
      PainPointView(Some(before), JsText.Trim(after))
  }

  /** A title without ':' followed by ':' and any text gives back that title and the trimmed text. */
  lemma PainPointOfJoined(title: string, rest: string)
    requires ':' !in title
    ensures PainPoint(title + ":" + rest) == PainPointView(Some(title), JsText.Trim(rest))
  {
    JsText.SplitFirstOfJoined(title, ':', rest);
  }

  /** `{title && <strong>{title}:</strong>}`: the bold title is shown only when it is not empty. */
  predicate BoldShown(v: PainPointView) {
    TruthyText(v.title)
  }

  /** A point that starts with ':' has an empty title, so it shows no bold title, and its body is
      the rest of the point without that ':'. */
  lemma LeadingColonShowsNoTitle(rest: string)
    ensures PainPoint(":" + rest) == PainPointView(Some(""), JsText.Trim(rest))
    ensures !BoldShown(PainPoint(":" + rest))
  {
    var p := ":" + rest;
    assert p == [] + [':'] + rest;
    JsText.SplitFirstOfJoined([], ':', rest);
  }

  /** What the section renders: the summary when it is not empty, the pain points when any. */
  datatype ProblemView = ProblemView(summary: Option<string>, painPoints: Option<seq<PainPointView>>)

  /** The section: nothing for null data; otherwise the guarded blocks. */
  function Render(data: Option<ProblemData>): (view: Option<ProblemView>)
    ensures view.None? <==> data.None?
    ensures view.Some? ==> (view.value.summary.Some? <==> TruthyText(data.value.summary))
    ensures view.Some? && view.value.summary.Some? ==> view.value.summary == data.value.summary
    ensures view.Some? ==> (view.value.painPoints.Some? <==> HasEntries(data.value.painPoints))
    ensures view.Some? && view.value.painPoints.Some? ==> PainPointsOf(data.value.painPoints.value, view.value.painPoints.value)
  {
    match data
    case None => None
    case Some(d) =>
      var summary := if TruthyText(d.summary) then d.summary else None;
      var points := if HasEntries(d.painPoints) then Some(seq(|d.painPoints.value|, k requires 0 <= k < |d.painPoints.value| => PainPoint(d.painPoints.value[k]))) else None;
      Some(ProblemView(summary, points))
  }

  /** `views` is `painPoints.map(…)`. */
  predicate PainPointsOf(points: seq<string>, views: seq<PainPointView>) {
    |views| == |points| && forall k :: 0 <= k < |points| ==> views[k] == PainPoint(points[k])
  }
}
