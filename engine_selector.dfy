/**
 * The search-engine picker (the `SearchEngineSelector` component): a
 * multi-select whose every change is reported to the page.
 */
module EngineSelector {
  import opened Wrappers
  import opened Lists

  class Selector {
    var selected: seq<string>

    /** The selection starts as the `selectedEngines` prop, none when it is not given. */
    constructor (selectedEngines: Option<seq<string>>)
      ensures selectedEngines.None? ==> selected == []
      ensures selectedEngines.Some? ==> selected == selectedEngines.value
    {
      selected := if selectedEngines.Some? then selectedEngines.value else [];
    }

    /**
     * toggleEngine: the engine leaves the selection, every occurrence of it,
     * with the rest in order, or joins it at the end; `onSelect` receives
     * the new selection.
     */
    method ToggleEngine(engineId: string) returns (reported: seq<string>)
      modifies this
      ensures reported == selected
      ensures selected == Toggle(old(selected), engineId)
      ensures engineId in selected <==> engineId !in old(selected)
      ensures forall e :: e != engineId ==> (e in selected <==> e in old(selected))
      ensures engineId !in old(selected) ==> selected == old(selected) + [engineId]
    {
      var newSelected := Toggle(selected, engineId);
      selected := newSelected;
      reported := newSelected;
    }
  }
}
