/**
 * The layer panels of the documentation page: a fixed list of (key, caption) layers filtered by
 * the truthiness of `data[key]`, as the architecture and security panels both do.
 */
module LayerPanels {

  import opened Wrappers
  import opened JsValue
  import Seqs

  /** One layer of a panel: the data key it shows and the caption above it. */
  datatype Layer = Layer(key: string, caption: string)

  /** `layers.filter(({ key }) => data[key])`; a panel with null data renders nothing. */
  function Shown(layers: seq<Layer>, data: Option<Record>): (shown: seq<Layer>)
    ensures data.None? ==> shown == []
    ensures data.Some? ==> forall l :: l in shown <==> l in layers && Truthy(Get(data.value, l.key))
    ensures Seqs.IsSubseq(shown, layers)
    ensures |shown| <= |layers|
  {
    match data
    case None => []
    case Some(d) => Seqs.Filter(layers, (l: Layer) => Truthy(Get(d, l.key)))
  }

  /** With every key filled in, every layer is shown, in the declared order. */
  lemma AllShown(layers: seq<Layer>, data: Record)
    requires forall l :: l in layers ==> Truthy(Get(data, l.key))
    ensures Shown(layers, Some(data)) == layers
  {
    Seqs.FilterAll(layers, (l: Layer) => Truthy(Get(data, l.key)));
  }

  /** Nothing is shown exactly when no layer's key is filled in. */
  lemma NoneShown(layers: seq<Layer>, data: Record)
    ensures Shown(layers, Some(data)) == [] <==> forall l :: l in layers ==> !Truthy(Get(data, l.key))
  {
    Seqs.FilterEmpty(layers, (l: Layer) => Truthy(Get(data, l.key)));
  }
}
