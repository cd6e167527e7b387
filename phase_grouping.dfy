/**
 * The grouping loop of the roadmap section, over features already classified: plain features
 * go to `general` and phased ones to the group of their key, groups in first-occurrence order.
 * The loop is a method proved against reference definitions of the groups.
 */
module PhaseGrouping {

  /** Where one feature is filed: under a phase key with its item, or as a plain feature. */
  datatype Filing = Plain(feature: string) | Phased(key: string, item: string)

  /** The plain features, in input order (reference for `general`). */
  function General(cs: seq<Filing>): (r: seq<string>)
    ensures |r| <= |cs|
  {
    if cs == [] then []
    else
      var last := cs[|cs| - 1];
      General(cs[..|cs| - 1]) + (if last.Plain? then [last.feature] else [])
  }

  /** `general` holds exactly the plain features. */
  lemma {:induction false} GeneralIsPlain(cs: seq<Filing>)
    ensures forall x :: x in General(cs) <==> Plain(x) in cs
  {
    if cs != [] {
      GeneralIsPlain(cs[..|cs| - 1]);
      assert cs == cs[..|cs| - 1] + [cs[|cs| - 1]];
    }
  }

  /** The items filed under `key`, in input order (reference for one bucket). */
  function ItemsFor(cs: seq<Filing>, key: string): (r: seq<string>)
    ensures |r| <= |cs|
  {
    if cs == [] then []
    else
      var last := cs[|cs| - 1];
      ItemsFor(cs[..|cs| - 1], key) + (if last.Phased? && last.key == key then [last.item] else [])
  }

  /** The phase keys in order of first occurrence (reference for `Object.entries(phaseMap)`,
      which lists string keys that are not array indices in insertion order). */
  function KeysInOrder(cs: seq<Filing>): (keys: seq<string>) {
    if cs == [] then []
    else
      var prior := KeysInOrder(cs[..|cs| - 1]);
      var last := cs[|cs| - 1];
      prior + (if last.Phased? && last.key !in prior then [last.key] else [])
  }

  /** One phase group as rendered: its heading and its items. */
  datatype Bucket = Bucket(phase: string, items: seq<string>)

  /** The phase groups the section renders, one per key in first-occurrence order. */
  function Buckets(cs: seq<Filing>): (bs: seq<Bucket>)
    ensures |bs| == |KeysInOrder(cs)|
  {
    var keys := KeysInOrder(cs);
    seq(|keys|, j requires 0 <= j < |keys| => Bucket(keys[j], ItemsFor(cs, keys[j])))
  }

  /** The `j`-th group is the `j`-th key with that key's items. */
  lemma BucketsAt(cs: seq<Filing>)
    ensures forall j :: 0 <= j < |Buckets(cs)| ==> Buckets(cs)[j] == Bucket(KeysInOrder(cs)[j], ItemsFor(cs, KeysInOrder(cs)[j]))
  {
  }

  /** No heading is listed twice: features naming the same phase share one group. */
  lemma {:induction false} KeysDistinct(cs: seq<Filing>)
    ensures forall i, j :: 0 <= i < j < |KeysInOrder(cs)| ==> KeysInOrder(cs)[i] != KeysInOrder(cs)[j]
  {
    if cs != [] {
      KeysDistinct(cs[..|cs| - 1]);
    }
  }

  /** A heading is listed exactly when its group has at least one item, so no group is empty
      and no filed item is lost. */
  lemma {:induction false} KeyListedIffItems(cs: seq<Filing>, key: string)
    ensures key in KeysInOrder(cs) <==> ItemsFor(cs, key) != []
  {
    if cs != [] {
      KeyListedIffItems(cs[..|cs| - 1], key);
    }
  }

  /** The number of items over all groups. */
  function TotalItems(bs: seq<Bucket>): nat {
    if bs == [] then 0 else TotalItems(bs[..|bs| - 1]) + |bs[|bs| - 1].items|
  }

  lemma {:induction false} TotalItemsUpdate(bs: seq<Bucket>, j: nat, b: Bucket)
    requires j < |bs|
    ensures TotalItems(bs[j := b]) + |bs[j].items| == TotalItems(bs) + |b.items|
  {
    var bs' := bs[j := b];
    if j < |bs| - 1 {
      assert bs'[..|bs'| - 1] == bs[..|bs| - 1][j := b];
      TotalItemsUpdate(bs[..|bs| - 1], j, b);
    } else {
      assert bs'[..|bs'| - 1] == bs[..|bs| - 1];
    }
  }

  lemma TotalItemsAppend(bs: seq<Bucket>, b: Bucket)
    ensures TotalItems(bs + [b]) == TotalItems(bs) + |b.items|
  {
    assert (bs + [b])[..|bs|] == bs;
  }

  /** The first group with the given heading (`phaseMap[phaseKey]`), or -1 when there is none. */
  function BucketIndex(bs: seq<Bucket>, key: string): (j: int)
    ensures j == -1 <==> forall t :: 0 <= t < |bs| ==> bs[t].phase != key
    ensures j != -1 ==> 0 <= j < |bs| && bs[j].phase == key
  {
    if bs == [] then -1
    else if bs[0].phase == key then 0
    else
      var j := BucketIndex(bs[1..], key);
      if j == -1 then -1 else j + 1
  }

  /** The items under `key` once `c` is filed: `c`'s item joins only its own group. */
  function Filed(cs: seq<Filing>, c: Filing, key: string): seq<string> {
    ItemsFor(cs, key) + (if c.Phased? && c.key == key then [c.item] else [])
  }

  /** Filing one more feature, in terms of the reference definitions. */
  lemma Snoc(cs: seq<Filing>, c: Filing)
    ensures General(cs + [c]) == General(cs) + (if c.Plain? then [c.feature] else [])
    ensures KeysInOrder(cs + [c]) == KeysInOrder(cs) + (if c.Phased? && c.key !in KeysInOrder(cs) then [c.key] else [])
    ensures forall key :: ItemsFor(cs + [c], key) == Filed(cs, c, key)
  {
    var g := cs + [c];
    assert g[..|g| - 1] == cs && g[|g| - 1] == c;
    forall key
      ensures ItemsFor(g, key) == Filed(cs, c, key)
    {
    }
  }

  /** A plain feature leaves the groups as they were. */
  lemma PlainStep(cs: seq<Filing>, c: Filing)
    requires c.Plain?
    ensures Buckets(cs + [c]) == Buckets(cs)
  {
    Snoc(cs, c);
    BucketsAt(cs);
    BucketsAt(cs + [c]);
    var keys := KeysInOrder(cs);
    var a, b := Buckets(cs + [c]), Buckets(cs);
    assert |a| == |b|;
    forall j | 0 <= j < |a|
      ensures a[j] == b[j]
    {
      assert Filed(cs, c, keys[j]) == ItemsFor(cs, keys[j]);
    }
  }

  /** A feature with a heading not seen before opens a group holding just its item. */
  lemma NewPhaseStep(cs: seq<Filing>, c: Filing)
    requires c.Phased? && c.key !in KeysInOrder(cs)
    ensures Buckets(cs + [c]) == Buckets(cs) + [Bucket(c.key, [c.item])]
  {
    Snoc(cs, c);
    BucketsAt(cs);
    BucketsAt(cs + [c]);
    KeyListedIffItems(cs, c.key);
    var keys := KeysInOrder(cs);
    var a, b := Buckets(cs + [c]), Buckets(cs) + [Bucket(c.key, [c.item])];
    assert |a| == |b|;
    forall j | 0 <= j < |a|
      ensures a[j] == b[j]
    {
      if j < |keys| {
        assert keys[j] in keys;
        assert Filed(cs, c, keys[j]) == ItemsFor(cs, keys[j]);
      } else {
        assert Filed(cs, c, c.key) == [c.item];
      }
    }
  }

  /** A feature with a heading already listed at position `j` appends its item to that group. */
  lemma KnownPhaseStep(cs: seq<Filing>, c: Filing, j: nat)
    requires j < |KeysInOrder(cs)| && c.Phased? && c.key == KeysInOrder(cs)[j]
    ensures Buckets(cs + [c]) == Buckets(cs)[j := Bucket(c.key, ItemsFor(cs, c.key) + [c.item])]
  {
    Snoc(cs, c);
    BucketsAt(cs);
    BucketsAt(cs + [c]);
    KeysDistinct(cs);
    var keys := KeysInOrder(cs);
    var a, b := Buckets(cs + [c]), Buckets(cs)[j := Bucket(c.key, ItemsFor(cs, c.key) + [c.item])];
    assert |a| == |b|;
    forall t | 0 <= t < |a|
      ensures a[t] == b[t]
    {
      if t != j {
        assert keys[t] != c.key;
        assert Filed(cs, c, keys[t]) == ItemsFor(cs, keys[t]);
      }
    }
  }

  /** The state after filing `done`: the groups and `general` of the reference definitions,
      holding one entry per filed feature. */
  predicate Collected(done: seq<Filing>, phases: seq<Bucket>, general: seq<string>) {
    phases == Buckets(done) && general == General(done) && TotalItems(phases) + |general| == |done|
  }

  /** The loop itself, over the features' filings. */
  method Collect(cs: seq<Filing>) returns (phases: seq<Bucket>, general: seq<string>)
    ensures phases == Buckets(cs) && general == General(cs)
    ensures TotalItems(phases) + |general| == |cs|
  {
    phases, general := [], [];
    var i := 0;
    assert cs[..i] == [];
    while i < |cs|
      invariant 0 <= i <= |cs|
      invariant Collected(cs[..i], phases, general)
    {
      assert cs[..i + 1] == cs[..i] + [cs[i]];
      phases, general := FileOne(cs[..i], phases, general, cs[i]);
      i := i + 1;
    }
    assert cs[..i] == cs;
  }

  /** One iteration of the `forEach` body: `c` goes to the end of `general`, into a new group,
      or to the end of the group already holding its heading. */
  method FileOne(ghost done: seq<Filing>, phases: seq<Bucket>, general: seq<string>, c: Filing)
    returns (phases': seq<Bucket>, general': seq<string>)
    requires Collected(done, phases, general)
    ensures Collected(done + [c], phases', general')
  {
    Snoc(done, c);
    match c {
      case Plain(f) =>
        PlainStep(done, c);
        phases', general' := phases, general + [f];
      case Phased(key, item) =>
        BucketsAt(done);
        var j := BucketIndex(phases, key);
        if j == -1 {
          assert key !in KeysInOrder(done);
          NewPhaseStep(done, c);
          TotalItemsAppend(phases, Bucket(key, [item]));
          phases' := phases + [Bucket(key, [item])];
        } else {
          KnownPhaseStep(done, c, j);
          TotalItemsUpdate(phases, j, Bucket(key, phases[j].items + [item]));
          phases' := phases[j := Bucket(key, phases[j].items + [item])];
        }
        general' := general;
    }
  }
}
