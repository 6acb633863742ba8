/** A `.tabs` group of a dashboard: its tab triggers and content panes, and the click handler setupTabs installs. */
module Tabs {
  import opened Wrappers
  import Tables
  import opened Dom

  class TabGroup {
    /** The group's `.tab-trigger[data-tab]` elements, keyed by their `data-tab` value. */
    var triggers: array<Element>
    /** The group's `.tab-content` elements, keyed by their id. */
    var panes: array<Element>

    ghost predicate Valid()
      reads this
    {
      triggers != panes
    }

    constructor (triggers: seq<Element>, panes: seq<Element>)
      ensures Valid() && fresh(this.triggers) && fresh(this.panes)
      ensures this.triggers[..] == triggers && this.panes[..] == panes
    {
      this.triggers := new Element[|triggers|](k requires 0 <= k < |triggers| => triggers[k]);
      this.panes := new Element[|panes|](k requires 0 <= k < |panes| => panes[k]);
    }

    /**
     * A click on trigger t: every trigger of the group loses `active` and t
     * gains it; every pane is hidden and the first pane whose id is t's
     * `data-tab` value followed by "-tab" is shown again. Only this group's
     * elements change.
     */
    method Click(t: nat)
      requires Valid() && t < triggers.Length
      modifies triggers, panes
      ensures triggers[..] == SelectedTriggers(old(triggers[..]), t)
      ensures panes[..] == RevealedPanes(old(panes[..]), old(triggers[t].key) + "-tab")
    {
      var tabId := triggers[t].key;
      var i := 0;
      while i < triggers.Length
        invariant 0 <= i <= triggers.Length
        invariant forall k :: 0 <= k < i ==> triggers[k] == old(triggers[k]).(active := false)
        invariant forall k :: i <= k < triggers.Length ==> triggers[k] == old(triggers[k])
        invariant panes[..] == old(panes[..])
      {
        triggers[i] := triggers[i].(active := false);
        i := i + 1;
      }
      triggers[t] := triggers[t].(active := true);

      i := 0;
      while i < panes.Length
        invariant 0 <= i <= panes.Length
        invariant forall k :: 0 <= k < i ==> panes[k] == old(panes[k]).(hidden := true)
        invariant forall k :: i <= k < panes.Length ==> panes[k] == old(panes[k])
        invariant triggers[..] == SelectedTriggers(old(triggers[..]), t)
      {
        panes[i] := panes[i].(hidden := true);
        i := i + 1;
      }
      var target := Tables.IndexOfFirst(panes[..], KeyIs(tabId + "-tab"));
      if target.Some? {
        panes[target.value] := panes[target.value].(hidden := false);
      }
    }
  }
}
