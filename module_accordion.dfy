/** The app-module accordion: one `openIndex` decides which module body is expanded. */
module ModuleAccordion {

  import opened Wrappers

  /** The `data` prop: null/undefined, or the list of modules (only its length matters here). */
  datatype ModulesProp = Missing | Modules(count: nat)

  /** `if (!data?.length) return null`: nothing is rendered for missing data or an empty list. */
  predicate Renders(data: ModulesProp)
    ensures data.Missing? ==> !Renders(data)
    ensures data == Modules(0) ==> !Renders(data)
    ensures Renders(data) ==> data.count >= 1
  {
    data.Modules? && data.count > 0
  }

  /** The rule inside `toggle(i)`: clicking the open module closes it, any other opens it. */
  function Toggled(openIndex: Option<nat>, i: nat): (r: Option<nat>)
    ensures r == Some(i) <==> openIndex != Some(i)
    ensures r != Some(i) ==> r == None
  {
    if openIndex == Some(i) then None else Some(i)
  }

  /** Toggling the same module twice from a closed accordion, or from one with that module open,
      gives back the starting state. */
  lemma ToggleTwice(openIndex: Option<nat>, i: nat)
    requires openIndex == None || openIndex == Some(i)
    ensures Toggled(Toggled(openIndex, i), i) == openIndex
  {
  }

  /** The accordion over `count` modules. */
  class Accordion {
    const count: nat
    var openIndex: Option<nat>

    /** Module `j`'s body is rendered (`openIndex === j`). */
    predicate IsOpen(j: nat)
      reads this
    {
      openIndex == Some(j)
    }

    /** `useState(null)`: everything starts closed. */
    constructor (modules: nat)
      ensures count == modules && openIndex == None
      ensures forall j: nat :: !IsOpen(j)
    {
      count := modules;
      openIndex := None;
    }

    /** A click on module `i`'s header or on its chip in the module index: both apply `Toggled`.
        Afterwards module `i` is open exactly when it was closed, and every other module is closed. */
    method Toggle(i: nat)
      requires i < count
      modifies this
      ensures openIndex == Toggled(old(openIndex), i)
      ensures IsOpen(i) <==> !old(IsOpen(i))
      ensures forall j: nat :: j != i ==> !IsOpen(j)
    {
      openIndex := Toggled(openIndex, i);
    }

    /** A single index controls every body, so at most one module is open. */
    lemma AtMostOneOpen(j: nat, k: nat)
      requires IsOpen(j) && IsOpen(k)
      ensures j == k
    {
    }
  }
}
