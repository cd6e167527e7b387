/**
 * The roadmap section: each planned feature that starts with a phase heading such as
 * "Phase 2 (Q3 2025):" is filed under that heading, the rest are listed as additional features.
 * The grouping loop is a method proved against reference definitions of the buckets.
 */
module FutureScope {

  import opened Wrappers
  import JsText
  import opened PhaseGrouping

  /** The two captured parts of `Phase <digits> (<detail>)`. */
  datatype PhaseMatch = PhaseMatch(digits: string, detail: string)

  /** What the pattern's groups can hold: one or more ASCII digits, and one or more characters
      other than ')'. */
  predicate ValidParts(digits: string, detail: string) {
    |digits| > 0 && (forall k :: 0 <= k < |digits| ==> JsText.IsDigit(digits[k]))
    && |detail| > 0 && ')' !in detail
  }

  /** The phase key, the pattern's first group: the heading without its trailing ':'. */
  function PhaseKey(digits: string, detail: string): string {
    "Phase " + digits + " (" + detail + ")"
  }

  /** The length of the run of ASCII digits that starts `s`. */
  function DigitRun(s: string): (n: nat)
    ensures n <= |s|
    ensures forall k :: 0 <= k < n ==> JsText.IsDigit(s[k])
    ensures n < |s| ==> !JsText.IsDigit(s[n])
  {
    if s == [] || !JsText.IsDigit(s[0]) then 0 else 1 + DigitRun(s[1..])
  }

  /** `f` starts with the heading built from `digits` and `detail`, followed by ':', stated
      position by position. */
  predicate HeadingAt(f: string, digits: string, detail: string) {
    var n := 6 + |digits|;
    var m := n + 2 + |detail|;
    m + 2 <= |f| && f[..6] == "Phase " && f[6..n] == digits && f[n] == ' ' && f[n + 1] == '('
    && f[n + 2..m] == detail && f[m] == ')' && f[m + 1] == ':'
  }

  /** The position-by-position statement is the same as "heading + ':' is a prefix of `f`". */
  lemma HeadingAtIsPrefix(f: string, digits: string, detail: string)
    ensures HeadingAt(f, digits, detail) <==> PhaseKey(digits, detail) + ":" <= f
  {
    if HeadingAt(f, digits, detail) {
      HeadingAtGivesPrefix(f, digits, detail);
    }
    if PhaseKey(digits, detail) + ":" <= f {
      PrefixGivesHeadingAt(f, digits, detail);
    }
  }

  /** The heading + ':' read position by position. */
  lemma HeadingChars(digits: string, detail: string)
    ensures var key := PhaseKey(digits, detail) + ":"; var n := 6 + |digits|; var m := n + 2 + |detail|;
      && |key| == m + 2 && key[..6] == "Phase " && key[6..n] == digits && key[n] == ' ' && key[n + 1] == '('
      && key[n + 2..m] == detail && key[m] == ')' && key[m + 1] == ':'
  {
    var key := PhaseKey(digits, detail) + ":";
    var n := 6 + |digits|;
    assert key == "Phase " + digits + " (" + detail + "):";
    assert key[6..] == digits + " (" + detail + "):";
    assert key[n + 2..] == detail + "):";
  }

  lemma HeadingAtGivesPrefix(f: string, digits: string, detail: string)
    requires HeadingAt(f, digits, detail)
    ensures PhaseKey(digits, detail) + ":" <= f
  {
    HeadingChars(digits, detail);
    var key := PhaseKey(digits, detail) + ":";
    var n := 6 + |digits|;
    var m := n + 2 + |detail|;
    forall k | 0 <= k < m + 2
      ensures key[k] == f[k]
    {
      if k < 6 {
        assert key[k] == key[..6][k] && f[k] == f[..6][k];
      } else if 6 <= k < n {
        assert key[k] == key[6..n][k - 6] && f[k] == f[6..n][k - 6];
      } else if n + 2 <= k < m {
        assert key[k] == key[n + 2..m][k - n - 2] && f[k] == f[n + 2..m][k - n - 2];
      }
    }
    assert key == f[..m + 2];
  }

  lemma PrefixGivesHeadingAt(f: string, digits: string, detail: string)
    requires PhaseKey(digits, detail) + ":" <= f
    ensures HeadingAt(f, digits, detail)
  {
    HeadingChars(digits, detail);
    var key := PhaseKey(digits, detail) + ":";
    var n := 6 + |digits|;
    var m := n + 2 + |detail|;
    assert f[..m + 2] == key;
    assert f[..6] == key[..6] && f[6..n] == key[6..n] && f[n + 2..m] == key[n + 2..m];
  }

  /** `feature.match(/^(Phase \d+ \([^)]+\)):/)`: the heading at the very start of `f`, if any. */
  function MatchPhase(f: string): (r: Option<PhaseMatch>)
    ensures r.Some? ==> ValidParts(r.value.digits, r.value.detail) && HeadingAt(f, r.value.digits, r.value.detail)
  {
    if |f| < 6 || f[..6] != "Phase " then None
    else
      var d := DigitRun(f[6..]);
      var n := 6 + d;
      if d == 0 || n + 2 > |f| || f[n] != ' ' || f[n + 1] != '(' then None
      else
        var c := JsText.IndexOf(f[n + 2..], ')');
        if c <= 0 || n + 2 + c + 1 >= |f| || f[n + 2 + c + 1] != ':' then None
        else
          assert f[6..][..d] == f[6..n];
          assert f[n + 2..][..c] == f[n + 2..n + 2 + c];
          Some(PhaseMatch(f[6..n], f[n + 2..n + 2 + c]))
  }

  /** Whenever the heading built from valid parts starts `f`, the match finds exactly those
      parts: the pattern is anchored, `\d+` stops at the space and `[^)]+` at the first ')'. */
  lemma MatchPhaseFinds(f: string, digits: string, detail: string)
    requires ValidParts(digits, detail) && HeadingAt(f, digits, detail)
    ensures MatchPhase(f) == Some(PhaseMatch(digits, detail))
  {
    var n := 6 + |digits|;
    DigitsEndAtSpace(f[6..], digits);
    DetailEndsAtParen(f[n + 2..], detail);
    assert f[6..][..|digits|] == f[6..n];
  }

  /** `\d+` after "Phase " takes exactly the heading's digits, which a space follows. */
  lemma DigitsEndAtSpace(tail: string, digits: string)
    requires |digits| < |tail| && tail[..|digits|] == digits && tail[|digits|] == ' '
    requires forall k :: 0 <= k < |digits| ==> JsText.IsDigit(digits[k])
    ensures DigitRun(tail) == |digits|
  {
    assert forall k :: 0 <= k < |digits| ==> tail[k] == digits[k];
  }

  /** `[^)]+` takes the detail up to the first ')'. */
  lemma DetailEndsAtParen(inner: string, detail: string)
    requires |detail| < |inner| && inner[..|detail|] == detail && inner[|detail|] == ')' && ')' !in detail
    ensures JsText.IndexOf(inner, ')') == |detail|
  {
    assert forall k :: 0 <= k < |detail| ==> inner[k] == detail[k];
    assert inner[|detail|] in inner;
    var c := JsText.IndexOf(inner, ')');
    assert forall k :: 0 <= k < c ==> inner[..c][k] == inner[k];
  }

  /** A feature is filed under a phase with given valid parts exactly when it starts with that
      phase's heading followed by ':'. */
  lemma MatchPhaseIff(f: string, digits: string, detail: string)
    requires ValidParts(digits, detail)
    ensures MatchPhase(f) == Some(PhaseMatch(digits, detail)) <==> PhaseKey(digits, detail) + ":" <= f
  {
    HeadingAtIsPrefix(f, digits, detail);
    if HeadingAt(f, digits, detail) {
      MatchPhaseFinds(f, digits, detail);
    }
  }

  /** A feature's filing.  The item is `feature.replace(phaseMatch[0], '').trim()`; the whole
      match starts the feature, so the occurrence that `replace` removes is that prefix. */
  function Classify(f: string): (r: Filing)
    ensures r.Plain? <==> MatchPhase(f).None?
    ensures r.Plain? ==> r.feature == f
    ensures r.Phased? ==> r.key == PhaseKey(MatchPhase(f).value.digits, MatchPhase(f).value.detail)
    ensures r.Phased? ==> |r.key| < |f| && r.item == JsText.Trim(f[|r.key| + 1..])
  {
    match MatchPhase(f)
    case None => Plain(f)
    case Some(m) =>
      var key := PhaseKey(m.digits, m.detail);
      assert |key| == 6 + |m.digits| + 2 + |m.detail| + 1;
      Phased(key, JsText.Trim(f[|key| + 1..]))
  }

  /** The filing of every feature, in input order. */
  function Filings(fs: seq<string>): (cs: seq<Filing>)
    ensures |cs| == |fs|
    ensures forall i :: 0 <= i < |fs| ==> cs[i] == Classify(fs[i])
  {
    seq(|fs|, i requires 0 <= i < |fs| => Classify(fs[i]))
  }

  /** The planned-features data: the roadmap summary and the feature list. */
  datatype FutureScopeData = FutureScopeData(roadmap: Option<string>, features: Option<seq<string>>)

  /** What the section renders: the roadmap paragraph when there is one, the phase groups and
      the additional features. */
  datatype View = View(roadmap: Option<string>, phases: seq<Bucket>, general: seq<string>)

  /** The section body.  Null data renders nothing; otherwise the roadmap paragraph is shown
      when it is non-empty and the features are grouped. */
  method Render(data: Option<FutureScopeData>) returns (view: Option<View>)
    ensures data.None? <==> view.None?
    ensures view.Some? ==> var v := view.value;
      && (v.roadmap.Some? <==> data.value.roadmap.Some? && data.value.roadmap.value != "")
      && (v.roadmap.Some? ==> v.roadmap == data.value.roadmap)
      && v.phases == Buckets(Filings(FeatureList(data.value)))
      && v.general == General(Filings(FeatureList(data.value)))
  {
    if data.None? {
      return None;
    }
    var phases, general := Group(FeatureList(data.value));
    var roadmap := if data.value.roadmap.Some? && data.value.roadmap.value != "" then data.value.roadmap else None;
    view := Some(View(roadmap, phases, general));
  }

  /** The `forEach` loop: every feature lands in exactly one place, a phase group or `general`,
      so the item counts add up to the number of features. */
  method Group(fs: seq<string>) returns (phases: seq<Bucket>, general: seq<string>)
    ensures phases == Buckets(Filings(fs))
    ensures general == General(Filings(fs))
    ensures TotalItems(phases) + |general| == |fs|
  {
    phases, general := Collect(Filings(fs));
  }

  /** `data.features?.forEach`: a missing feature list files nothing. */
  function FeatureList(data: FutureScopeData): (fs: seq<string>)
    ensures data.features.None? ==> fs == []
    ensures data.features.Some? ==> fs == data.features.value
  {
    data.features.GetOr([])
  }
}
