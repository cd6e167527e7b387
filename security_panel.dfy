/** The security-and-privacy panel: up to three layers, each shown when its data is present. */
module SecurityPanel {

  import opened Wrappers
  import opened JsValue
  import opened LayerPanels

  /** The declared layers, in display order. */
  const Layers: seq<Layer> := [
    Layer("authentication", "Authentication"),
    Layer("encryption", "Encryption"),
    Layer("privacy", "Privacy")
  ]

  /** The panel's rows: the layers whose key is truthy in the data, in declared order, so at
      most three and none for null data. */
  function Rows(data: Option<Record>): (rows: seq<Layer>)
    ensures |rows| <= 3
    ensures data.None? ==> rows == []
    ensures data.Some? ==> forall l :: l in rows <==> l in Layers && Truthy(Get(data.value, l.key))
  {
    Shown(Layers, data)
  }

  /** A record with only `privacy` filled in shows the privacy row alone. */
  lemma PrivacyOnly(text: string)
    requires text != ""
    ensures Rows(Some(map["privacy" := Str(text)])) == [Layer("privacy", "Privacy")]
  {
    var data := map["privacy" := Str(text)];
    assert Get(data, "authentication") == Undefined;
    assert Get(data, "encryption") == Undefined;
    assert Get(data, "privacy") == Str(text);
    assert Layers[1..] == [Layer("encryption", "Encryption"), Layer("privacy", "Privacy")];
    assert Layers[2..] == [Layer("privacy", "Privacy")];
  }
}
