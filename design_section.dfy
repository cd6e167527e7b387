/**
 * The design-system section: the theme chips, the principles list and the UI patterns, each
 * pattern split at its first ':' into a name and a trimmed description.
 */
module DesignSection {

  import opened Wrappers
  import opened JsValue
  import JsText

  /** The design data: three optional string lists. */
  datatype DesignData = DesignData(themes: Option<seq<string>>, principles: Option<seq<string>>, patterns: Option<seq<string>>)

  /** One rendered pattern: its name and, when the pattern had a ':', its description. */
  datatype PatternView = PatternView(name: string, desc: Option<string>)

  /** A pattern split at its first ':' (`indexOf`, `slice`, `trim`). */
  function Pattern(p: string): (v: PatternView)
    ensures ':' !in v.name
    ensures v.desc.None? <==> ':' !in p
    ensures v.desc.None? ==> v.name == p
    ensures v.desc.Some? ==> |v.name| < |p| && p[..|v.name|] == v.name && p[|v.name|] == ':'
    ensures v.desc.Some? ==> v.desc.value == JsText.Trim(p[|v.name| + 1..])
  {
    match JsText.SplitFirst(p, ':')
    case None => PatternView(p, None)
    case Some((before, after)) =>
      assert p[..|before|] == before && p[|before| + 1..] == after;
      PatternView(before, Some(JsText.Trim(after)))
  }

  /** The name, a ':' and the untrimmed remainder give back the pattern, and a name without ':'
      followed by ':' and any text splits back into that name and the trimmed text. */
  lemma PatternRoundTrip(p: string, name: string, rest: string)
    ensures Pattern(p).desc.Some? ==> Pattern(p).name + ":" + p[|Pattern(p).name| + 1..] == p
    ensures ':' !in name ==> Pattern(name + ":" + rest) == PatternView(name, Some(JsText.Trim(rest)))
  {
    var v := Pattern(p);
    if v.desc.Some? {
      assert p == p[..|v.name|] + [p[|v.name|]] + p[|v.name| + 1..];
    }
    if ':' !in name {
      JsText.SplitFirstOfJoined(name, ':', rest);
    }
  }

  /** `{desc && …}`: the description is shown only when it is present and not empty. */
  predicate DescShown(v: PatternView) {
    TruthyText(v.desc)
  }

  /** A pattern ending in ':' and white space keeps its name but shows no description. */
  lemma EmptyDescriptionHidden(name: string, spaces: string)
    requires ':' !in name && JsText.AllSpace(spaces)
    ensures Pattern(name + ":" + spaces) == PatternView(name, Some(""))
    ensures !DescShown(Pattern(name + ":" + spaces))
  {
    PatternRoundTrip("", name, spaces);
    JsText.TrimAllSpace(spaces);
  }

  /** What the section renders: each block is present only when its list is non-empty. */
  datatype DesignView = DesignView(themes: Option<seq<string>>, principles: Option<seq<string>>, patterns: Option<seq<PatternView>>)

  /** The section: nothing for null data; otherwise the blocks whose lists are non-empty, and
      the patterns split one by one. */
  function Render(data: Option<DesignData>): (view: Option<DesignView>)
    ensures view.None? <==> data.None?
    ensures view.Some? ==> (view.value.themes.Some? <==> HasEntries(data.value.themes))
    ensures view.Some? && view.value.themes.Some? ==> view.value.themes == data.value.themes
    ensures view.Some? ==> (view.value.principles.Some? <==> HasEntries(data.value.principles))
    ensures view.Some? && view.value.principles.Some? ==> view.value.principles == data.value.principles
    ensures view.Some? ==> (view.value.patterns.Some? <==> HasEntries(data.value.patterns))
    ensures view.Some? && view.value.patterns.Some? ==> PatternsOf(data.value.patterns.value, view.value.patterns.value)
  {
    match data
    case None => None
    case Some(d) =>
      var themes := if HasEntries(d.themes) then d.themes else None;
      var principles := if HasEntries(d.principles) then d.principles else None;
      var patterns := if HasEntries(d.patterns) then Some(seq(|d.patterns.value|, k requires 0 <= k < |d.patterns.value| => Pattern(d.patterns.value[k]))) else None;
      Some(DesignView(themes, principles, patterns))
  }

  /** `views` is `patterns.map(…)`: one split pattern per input, in order. */
  predicate PatternsOf(patterns: seq<string>, views: seq<PatternView>) {
    |views| == |patterns| && forall k :: 0 <= k < |patterns| ==> views[k] == Pattern(patterns[k])
  }
}
