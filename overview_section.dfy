/**
 * The overview section: the purpose paragraph, the target users and the key benefits.  A
 * benefit is taken apart with `split(':')`: the first piece is its title and the other pieces,
 * joined back with ':' and trimmed, are its description.
 */
module OverviewSection {

  import opened Wrappers
  import opened JsValue
  import JsText

  /** The overview data: an optional purpose and two optional string lists. */
  datatype OverviewData = OverviewData(purpose: Option<string>, targetUsers: Option<seq<string>>, benefits: Option<seq<string>>)

  /** One rendered benefit: a titled card when the benefit holds ':', otherwise the plain text. */
  datatype BenefitView = Titled(title: string, description: string) | PlainText(text: string)

  /** `const [title, ...rest] = benefit.split(':')` and `benefit.includes(':')`. */
  function Benefit(b: string): (v: BenefitView)
    ensures v.PlainText? <==> ':' !in b
    ensures v.PlainText? ==> v.text == b
  {
    var parts := JsText.Split(b, ':');
    if ':' in b then Titled(parts[0], JsText.Trim(JsText.Join(parts[1..], ":"))) else PlainText(b)
  }

  /** The split-and-join parse agrees with splitting at the first ':': the title is the text
      before it and the description is everything after it, later colons included, trimmed. */
  lemma BenefitIsFirstColon(b: string)
    requires ':' in b
    ensures Benefit(b).Titled?
    ensures ':' !in Benefit(b).title
    ensures JsText.SplitFirst(b, ':') == Some((Benefit(b).title, JsText.SplitFirst(b, ':').value.1))
    ensures Benefit(b).description == JsText.Trim(JsText.SplitFirst(b, ':').value.1)
  {
    JsText.SplitHeadRest(b, ':');
  }

  /** A title without ':' followed by ':' and any text, colons included, gives back that title
      and the trimmed text. */
  lemma {:induction false} BenefitOfJoined(title: string, rest: string)
    requires ':' !in title
    ensures Benefit(title + ":" + rest) == Titled(title, JsText.Trim(rest))
  {
    var b := title + ":" + rest;
    assert b == title + [':'] + rest;
    assert b[|title|] == ':';
    JsText.SplitFirstOfJoined(title, ':', rest);
    BenefitIsFirstColon(b);
  }

  /** What the section renders: the purpose when it is not empty, and the lists when non-empty. */
  datatype OverviewView = OverviewView(purpose: Option<string>, targetUsers: Option<seq<string>>, benefits: Option<seq<BenefitView>>)

  /** The section: nothing for null data; otherwise the guarded blocks. */
  function Render(data: Option<OverviewData>): (view: Option<OverviewView>)
    ensures view.None? <==> data.None?
    ensures view.Some? ==> (view.value.purpose.Some? <==> TruthyText(data.value.purpose))
    ensures view.Some? && view.value.purpose.Some? ==> view.value.purpose == data.value.purpose
    ensures view.Some? ==> (view.value.targetUsers.Some? <==> HasEntries(data.value.targetUsers))
    ensures view.Some? && view.value.targetUsers.Some? ==> view.value.targetUsers == data.value.targetUsers
    ensures view.Some? ==> (view.value.benefits.Some? <==> HasEntries(data.value.benefits))
    ensures view.Some? && view.value.benefits.Some? ==> BenefitsOf(data.value.benefits.value, view.value.benefits.value)
  {
    match data
    case None => None
    case Some(d) =>
      var purpose := if TruthyText(d.purpose) then d.purpose else None;
      var users := if HasEntries(d.targetUsers) then d.targetUsers else None;
      var benefits := if HasEntries(d.benefits) then Some(seq(|d.benefits.value|, k requires 0 <= k < |d.benefits.value| => Benefit(d.benefits.value[k]))) else None;
      Some(OverviewView(purpose, users, benefits))
  }

  /** `views` is `benefits.map(…)`. */
  predicate BenefitsOf(benefits: seq<string>, views: seq<BenefitView>) {
    |views| == |benefits| && forall k :: 0 <= k < |benefits| ==> views[k] == Benefit(benefits[k])
  }
}
