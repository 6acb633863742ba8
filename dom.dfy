/**
 * The visibility rules of the page: elements identified by a key (an id or
 * a `data-tab` value) carrying the two classes the navigation code toggles,
 * `active` and `hidden`, and what showPage and a tab click make of a list of
 * them.
 */
module Dom {
  import opened Wrappers
  import Tables

  datatype Element = Element(key: string, active: bool, hidden: bool)

  /** On screen: marked active and not hidden. */
  predicate Visible(e: Element)
  {
    e.active && !e.hidden
  }

  function KeyIs(key: string): Element -> bool
  {
    (e: Element) => e.key == key
  }

  /** No two elements share a key, as ids in a document should not. */
  ghost predicate DistinctKeys(es: seq<Element>)
  {
    forall i, j :: 0 <= i < j < |es| ==> es[i].key != es[j].key
  }

  /** A page as showPage leaves every page first: 'active' removed, 'hidden' added. */
  function Conceal(e: Element): Element
  {
    e.(active := false, hidden := true)
  }

  /**
   * The pages after showPage(id): all concealed, then the first with that id
   * made visible. The empty id names no element, even one without an id.
   */
  function ShownPages(pages: seq<Element>, id: string): seq<Element>
  {
    var concealed := seq(|pages|, k requires 0 <= k < |pages| => Conceal(pages[k]));
    if id == "" then concealed
    else match Tables.FirstMatch(concealed, KeyIs(id))
    case None => concealed
    case Some(i) => concealed[i := concealed[i].(active := true, hidden := false)]
  }

  /**
   * With distinct ids, after showPage(id) a page is active exactly when it is
   * the one named by a non-empty id and hidden exactly when it is not; ids
   * are kept.
   */
  lemma ShowPageShowsOnlyNamed(pages: seq<Element>, id: string)
    requires DistinctKeys(pages)
    ensures var r := ShownPages(pages, id);
      && |r| == |pages|
      && forall k :: 0 <= k < |r| ==>
           && r[k].key == pages[k].key
           && (r[k].active <==> id != "" && pages[k].key == id)
           && (r[k].hidden <==> id == "" || pages[k].key != id)
  {
  }

  /** showPage with the empty id, or an id no page has, leaves every page hidden and none active. */
  lemma ShowPageUnknownHidesAll(pages: seq<Element>, id: string)
    requires id == "" || forall k :: 0 <= k < |pages| ==> pages[k].key != id
    ensures var r := ShownPages(pages, id);
      |r| == |pages| && forall k :: 0 <= k < |r| ==> !r[k].active && r[k].hidden
  {
  }

  /**
   * Exactly one page is visible after showPage names an existing page by a
   * non-empty id, even when ids repeat.
   */
  lemma ShowPageVisibleCount(pages: seq<Element>, id: string, k: nat)
    requires k < |pages| && pages[k].key == id && id != ""
    ensures var r := ShownPages(pages, id);
      exists i :: 0 <= i < |r| && Visible(r[i]) && forall j :: 0 <= j < |r| && j != i ==> !Visible(r[j])
  {
    var concealed := seq(|pages|, k requires 0 <= k < |pages| => Conceal(pages[k]));
    assert KeyIs(id)(concealed[k]);
    var i := Tables.FirstMatch(concealed, KeyIs(id)).value;
    assert Visible(ShownPages(pages, id)[i]);
  }

  /** The triggers of a tab group after trigger t is clicked: t alone is active. */
  function SelectedTriggers(triggers: seq<Element>, t: nat): seq<Element>
    requires t < |triggers|
  {
    var cleared := seq(|triggers|, k requires 0 <= k < |triggers| => triggers[k].(active := false));
    cleared[t := cleared[t].(active := true)]
  }

  /** The content panes of a tab group after a click: all hidden, then the first with the target id shown. */
  function RevealedPanes(panes: seq<Element>, paneId: string): seq<Element>
  {
    var covered := seq(|panes|, k requires 0 <= k < |panes| => panes[k].(hidden := true));
    match Tables.FirstMatch(covered, KeyIs(paneId))
    case None => covered
    case Some(i) => covered[i := covered[i].(hidden := false)]
  }

  /** After a click, the clicked trigger is the only active one of its group; nothing else about the triggers changes. */
  lemma TabClickSelectsOne(triggers: seq<Element>, t: nat)
    requires t < |triggers|
    ensures var r := SelectedTriggers(triggers, t);
      && |r| == |triggers|
      && forall k :: 0 <= k < |r| ==>
           r[k].key == triggers[k].key && r[k].hidden == triggers[k].hidden && (r[k].active <==> k == t)
  {
  }

  /**
   * With distinct ids, after a click a pane of the group is hidden exactly
   * when its id is not the target id; the `active` class of panes is untouched.
   */
  lemma TabClickRevealsTarget(panes: seq<Element>, paneId: string)
    requires DistinctKeys(panes)
    ensures var r := RevealedPanes(panes, paneId);
      && |r| == |panes|
      && forall k :: 0 <= k < |r| ==>
           r[k].key == panes[k].key && r[k].active == panes[k].active && (r[k].hidden <==> panes[k].key != paneId)
  {
  }
}
