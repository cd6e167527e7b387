/** The technical-architecture panel: up to five layers, each shown when its data is present. */
module ArchitecturePanel {

  import opened Wrappers
  import opened JsValue
  import opened LayerPanels
  import Seqs

  /** The declared layers, in display order. */
  const Layers: seq<Layer> := [
    Layer("frontend", "Frontend"),
    Layer("backend", "Backend"),
    Layer("state", "State"),
    Layer("storage", "Storage"),
    Layer("api", "API / Integrations")
  ]

  /** The panel's rows: the layers whose key is truthy in the data, in declared order, so at
      most five and none for null data. */
  function Rows(data: Option<Record>): (rows: seq<Layer>)
    ensures |rows| <= 5
    ensures data.None? ==> rows == []
    ensures data.Some? ==> forall l :: l in rows <==> l in Layers && Truthy(Get(data.value, l.key))
  {
    Shown(Layers, data)
  }

  /** The `api` key is captioned "API / Integrations", and it is shown exactly when truthy. */
  lemma ApiRow(data: Record)
    ensures Layer("api", "API / Integrations") in Rows(Some(data)) <==> Truthy(Get(data, "api"))
  {
    assert Layers[4] == Layer("api", "API / Integrations");
  }

  /** Keys outside the declared five never add a row, whatever they hold. */
  lemma OnlyDeclaredKeys(data: Record, key: string, v: Value)
    requires key !in {"frontend", "backend", "state", "storage", "api"}
    ensures Rows(Some(data[key := v])) == Rows(Some(data))
  {
    var p := (l: Layer) => Truthy(Get(data[key := v], l.key));
    var q := (l: Layer) => Truthy(Get(data, l.key));
    assert forall k :: 0 <= k < |Layers| ==> p(Layers[k]) == q(Layers[k]);
    Seqs.FilterSameOn(Layers, p, q);
  }
}
