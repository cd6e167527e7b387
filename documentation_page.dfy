/**
 * The documentation page's table of contents: the fixed `TOC_DEFINITIONS`, the filter that keeps
 * the entries whose data is present, the numbered links, and the guards under which the body
 * renders each section.  Also the footer line.
 */
module DocumentationPage {

  import opened Wrappers
  import opened JsValue
  import Seqs
  import JsText

  /** One table-of-contents definition: the anchor id, the label and the data key it depends on. */
  datatype TocEntry = TocEntry(id: string, caption: string, dataKey: string)

  /** `TOC_DEFINITIONS`, in page order. */
  const TocDefinitions: seq<TocEntry> := [
    TocEntry("overview", "Project Overview", "overview"),
    TocEntry("gallery", "Screenshots", "gallery"),
    TocEntry("problem", "Problem Statement", "problem"),
    TocEntry("features", "Core Features", "features"),
    TocEntry("modules", "App Modules", "modules"),
    TocEntry("workflow", "User Flow & Workflow", "workflow"),
    TocEntry("analytics", "Analytics & Insights", "analytics"),
    TocEntry("architecture", "Technical Architecture", "architecture"),
    TocEntry("security", "Security & Privacy", "security"),
    TocEntry("design", "Design System", "design"),
    TocEntry("future", "Future Enhancements", "future"),
    TocEntry("code", "Code Examples", "codeExamples")
  ]

  /** The filter's test on `data[dataKey]`: truthy, and non-empty if it is an array. */
  predicate Present(v: Value) {
    Truthy(v) && (v.Arr? ==> v.length > 0)
  }

  /** `activeToc`: no entries without data, otherwise the definitions whose data is present. */
  function ActiveToc(data: Option<Record>): (toc: seq<TocEntry>)
    ensures data.None? ==> toc == []
    ensures data.Some? ==> forall e :: e in toc <==> e in TocDefinitions && Present(Get(data.value, e.dataKey))
    ensures Seqs.IsSubseq(toc, TocDefinitions)
    ensures |toc| <= 12
  {
    match data
    case None => []
    case Some(d) => Seqs.Filter(TocDefinitions, (e: TocEntry) => Present(Get(d, e.dataKey)))
  }

  /** One rendered table-of-contents link: its badge number, its `href` and its label. */
  datatype TocLink = TocLink(number: nat, href: string, caption: string)

  /** `activeToc.map(({ id, label }, index) => …)`. */
  function TocLinks(toc: seq<TocEntry>): seq<TocLink> {
    seq(|toc|, k requires 0 <= k < |toc| => TocLink(k + 1, "#" + toc[k].id, toc[k].caption))
  }

  /** The badges count 1, 2, … up to the number of entries, with no gap or repeat. */
  lemma BadgesConsecutive(toc: seq<TocEntry>)
    ensures forall k :: 0 <= k < |toc| ==> TocLinks(toc)[k].number == k + 1
    ensures |toc| > 0 ==> TocLinks(toc)[|toc| - 1].number == |toc|
  {
  }

  /** The table-of-contents block is rendered only when some entry survived the filter. */
  predicate TocShown(data: Option<Record>) {
    |ActiveToc(data)| > 0
  }

  /** How the body guards a section: `data.key && …` or `data.key?.length > 0 && …`. */
  datatype Guard = IsTruthy(key: string) | HasLength(key: string)

  /** One section of the body: the anchor id of its wrapper and its guard. */
  datatype BodySection = BodySection(id: string, guard: Guard)

  /** The sections the body renders, in page order. */
  const BodySections: seq<BodySection> := [
    BodySection("overview", IsTruthy("overview")),
    BodySection("gallery", HasLength("gallery")),
    BodySection("problem", IsTruthy("problem")),
    BodySection("features", HasLength("features")),
    BodySection("modules", HasLength("modules")),
    BodySection("workflow", HasLength("workflow")),
    BodySection("analytics", IsTruthy("analytics")),
    BodySection("architecture", IsTruthy("architecture")),
    BodySection("security", IsTruthy("security")),
    BodySection("design", IsTruthy("design")),
    BodySection("future", IsTruthy("future")),
    BodySection("code", HasLength("codeExamples"))
  ]

  /** Whether a guard lets its section render. */
  predicate GuardHolds(data: Record, g: Guard) {
    match g
    case IsTruthy(key) => Truthy(Get(data, key))
    case HasLength(key) => HasItems(Get(data, key))
  }

  /** The data has the declared shape: a key guarded by its length holds an array or nothing,
      a key guarded by truthiness holds an object or nothing. */
  predicate WellTyped(data: Record) {
    forall k :: 0 <= k < |BodySections| ==> ShapeFits(data, BodySections[k].guard)
  }

  predicate ShapeFits(data: Record, g: Guard) {
    match g
    case IsTruthy(key) => Get(data, key).Undefined? || Get(data, key).Obj?
    case HasLength(key) => Get(data, key).Undefined? || Get(data, key).Arr?
  }

  /** For data of the declared shape, the `k`-th table-of-contents entry is listed exactly when
      the body renders its `k`-th section, and the link points at that section's anchor: every
      link has its target and every rendered section its link, in the same order. */
  lemma TocMatchesSections(data: Record, k: nat)
    requires WellTyped(data) && k < |TocDefinitions|
    ensures k < |BodySections| && TocDefinitions[k].id == BodySections[k].id
    ensures TocDefinitions[k] in ActiveToc(Some(data)) <==> GuardHolds(data, BodySections[k].guard)
  {
    TablesAligned(k);
    var e := TocDefinitions[k];
    var g := BodySections[k].guard;
    assert e in TocDefinitions;
    assert ShapeFits(data, g);
    assert e in ActiveToc(Some(data)) <==> Present(Get(data, g.key));
  }

  /** The `k`-th definition and the `k`-th body section share the anchor id and the data key. */
  lemma TablesAligned(k: nat)
    requires k < |TocDefinitions|
    ensures k < |BodySections| && TocDefinitions[k].id == BodySections[k].id
    ensures TocDefinitions[k].dataKey == BodySections[k].guard.key
  {
  }

  /** For data of the declared shape, every link of the table of contents points at the anchor of
      a section the body renders. */
  lemma LinksReachRenderedSections(data: Record, k: nat)
    requires WellTyped(data) && k < |TocLinks(ActiveToc(Some(data)))|
    ensures AnchorRendered(data, TocLinks(ActiveToc(Some(data)))[k].href)
  {
    var toc := ActiveToc(Some(data));
    var e := toc[k];
    assert e in toc;
    var j :| 0 <= j < |TocDefinitions| && TocDefinitions[j] == e;
    TocMatchesSections(data, j);
    assert TocLinks(toc)[k].href == "#" + BodySections[j].id && GuardHolds(data, BodySections[j].guard);
  }

  /** `href` is `#` followed by the anchor of a section the body renders for `data`. */
  predicate AnchorRendered(data: Record, href: string) {
    exists j :: 0 <= j < |BodySections| && href == "#" + BodySections[j].id && GuardHolds(data, BodySections[j].guard)
  }

  /** For data of the declared shape, every section the body renders has a link in the table of
      contents. */
  lemma RenderedSectionsHaveLinks(data: Record, j: nat)
    requires WellTyped(data) && j < |BodySections| && GuardHolds(data, BodySections[j].guard)
    ensures exists k :: 0 <= k < |TocLinks(ActiveToc(Some(data)))| && TocLinks(ActiveToc(Some(data)))[k].href == "#" + BodySections[j].id
  {
    var toc := ActiveToc(Some(data));
    TocMatchesSections(data, j);
    assert TocDefinitions[j] in toc;
    var k :| 0 <= k < |toc| && toc[k] == TocDefinitions[j];
    assert TocLinks(toc)[k].href == "#" + BodySections[j].id;
  }

  /** The two guards differ outside the declared shape: a truthy non-array `gallery` is listed in
      the table of contents, but the body, which asks for `gallery?.length > 0`, does not render it. */
  lemma TocAndBodyDisagreeOnObjectGallery()
    ensures var data := map["gallery" := Obj];
      TocDefinitions[1] in ActiveToc(Some(data)) && !GuardHolds(data, BodySections[1].guard)
  {
    var data := map["gallery" := Obj];
    var e := TocDefinitions[1];
    assert e in TocDefinitions && e.dataKey == "gallery";
    assert Get(data, "gallery") == Obj;
    assert Present(Get(data, e.dataKey));
  }

  /** The footer line: the tech stack joined by ", ", then " • status" when a status is set. */
  function Footer(techStack: Option<seq<string>>, status: Option<string>): string {
    var suffix := if status.Some? && status.value != "" then " \U{2022} " + status.value else "";
    JoinedStack(techStack) + suffix
  }

  /** `data.techStack?.join(', ')`, which renders nothing when there is no tech stack. */
  function JoinedStack(techStack: Option<seq<string>>): (s: string)
    ensures techStack == None || techStack == Some([]) ==> s == ""
    ensures techStack.Some? && techStack.value != [] ==> techStack.value[0] <= s
  {
    match techStack
    case None => ""
    case Some(items) => JsText.Join(items, ", ")
  }

  /** When no technology name holds a bullet, the footer gives the status back: a set status is
      the text after the first bullet and its following space, and without a status there is no
      bullet at all. */
  lemma FooterStatusRecovered(techs: seq<string>, status: Option<string>)
    requires forall k :: 0 <= k < |techs| ==> '\U{2022}' !in techs[k]
    ensures TruthyText(status) ==>
      JsText.SplitFirst(Footer(Some(techs), status), '\U{2022}') == Some((JoinedStack(Some(techs)) + " ", " " + status.value))
    ensures !TruthyText(status) ==> '\U{2022}' !in Footer(Some(techs), status)
  {
    var stack := JoinedStack(Some(techs));
    JsText.JoinAvoids(techs, ", ", '\U{2022}');
    assert '\U{2022}' !in stack + " ";
    if TruthyText(status) {
      assert Footer(Some(techs), status) == (stack + " ") + ['\U{2022}'] + (" " + status.value);
      JsText.SplitFirstOfJoined(stack + " ", '\U{2022}', " " + status.value);
    } else {
      assert Footer(Some(techs), status) == stack;
    }
  }

  /** Each technology name after the first, with the space that follows the comma. */
  function Spaced(techs: seq<string>): (r: seq<string>)
    ensures |r| == |techs|
    ensures forall k :: 0 <= k < |techs| ==> r[k] == " " + techs[k]
  {
    seq(|techs|, k requires 0 <= k < |techs| => " " + techs[k])
  }

  /** When no technology name holds a comma, splitting the footer's stack at the commas gives the
      names back in order, each after the first with the separator's space in front. */
  lemma StackSplitsBack(techs: seq<string>)
    requires |techs| >= 1
    requires forall k :: 0 <= k < |techs| ==> ',' !in techs[k]
    ensures JsText.Split(JoinedStack(Some(techs)), ',') == [techs[0]] + Spaced(techs[1..])
  {
    var parts := [techs[0]] + Spaced(techs[1..]);
    CommaSpaceJoin(techs);
    forall k | 0 <= k < |parts| ensures ',' !in parts[k] {
      if k > 0 {
        assert parts[k] == " " + techs[k];
      }
    }
    JsText.SplitJoin(parts, ',');
  }

  /** Joining with ", " is joining with "," after putting a space in front of every name but the
      first. */
  lemma CommaSpaceJoin(techs: seq<string>)
    requires |techs| >= 1
    ensures JsText.Join(techs, ", ") == JsText.Join([techs[0]] + Spaced(techs[1..]), ",")
  {
    if |techs| > 1 {
      CommaSpaceJoinCons(techs);
    } else {
      var spaced := [techs[0]] + Spaced(techs[1..]);
      assert |spaced| == 1 && spaced[0] == techs[0];
    }
  }

  /** The step of `CommaSpaceJoin` for a first name followed by at least one more. */
  lemma CommaSpaceJoinCons(techs: seq<string>)
    requires |techs| > 1
    ensures JsText.Join(techs, ", ") == JsText.Join([techs[0]] + Spaced(techs[1..]), ",")
  {
    var head, rest := techs[0], techs[1..];
    var tail := JsText.Join(rest, ", ");
    assert techs == [head] + rest;
    calc {
      JsText.Join(techs, ", ");
      { JsText.JoinCons(head, rest, ", "); }
      head + ", " + tail;
      { assert ", " == [','] + [' ']; Associate(head, [','], [' '], tail); }
      head + "," + (" " + tail);
      { SpacedJoin(rest); }
      head + "," + JsText.Join(Spaced(rest), ",");
      { JsText.JoinCons(head, Spaced(rest), ","); }
      JsText.Join([head] + Spaced(rest), ",");
    }
  }

  /** Regrouping a concatenation. */
  lemma Associate(a: string, b: string, c: string, d: string)
    ensures a + (b + c) + d == a + b + (c + d)
  {
  }

  /** Joining the spaced names with "," is joining the names with ", " behind one space. */
  lemma {:induction false} SpacedJoin(us: seq<string>)
    requires |us| >= 1
    ensures JsText.Join(Spaced(us), ",") == " " + JsText.Join(us, ", ")
  {
    if |us| > 1 {
      SpacedJoin(us[1..]);
      assert Spaced(us)[1..] == Spaced(us[1..]);
    }
  }
}
