/**
 * Sidebar navigation: clicking a section scrolls the window so that the
 * section's anchor sits a fixed distance below the viewport top. A missing
 * anchor makes the click do nothing.
 */
module Navigation {
  import opened Wrappers
  import opened ScrollTracker

  /** How far below the viewport top a navigated-to anchor comes to rest. */
  const AnchorOffset: real := 100.0

  /**
   * The window scroll offset requested for an anchor, given the anchor's
   * offsetTop (its offset from its offsetParent); None (no scroll requested)
   * when the anchor does not exist. The requested offset places the anchor
   * 100 px below the viewport top only when the offsetParent is the document
   * itself, that is when no ancestor of the section is positioned.
   */
  function ScrollTarget(anchor: Option<real>): (r: Option<real>)
    ensures r.Some? <==> anchor.Some?
    ensures r.Some? ==> anchor.value - r.value == AnchorOffset
  {
    match anchor
    case Some(offsetTop) => Some(offsetTop - AnchorOffset)
    case None => None
  }

  /** The window scroll offset after a click: the target, or the old offset when nothing is requested. */
  function ScrollAfterClick(scrollY: real, anchor: Option<real>): (y: real)
    ensures anchor.None? ==> y == scrollY
    ensures anchor.Some? ==> anchor.value - y == AnchorOffset
  {
    match ScrollTarget(anchor)
    case Some(target) => target
    case None => scrollY
  }

  /**
   * Layout assumption for NavigationHighlightsTarget: the viewport-relative
   * top the browser reports for a section is its document offset minus the
   * window scroll offset.
   */
  function ViewportTops(offsets: seq<real>, scrollY: real): (tops: seq<Option<real>>)
    requires |offsets| == |Sections|
    ensures |tops| == |Sections|
  {
    seq(|Sections|, i requires 0 <= i < |Sections| => Some(offsets[i] - scrollY))
  }

  /**
   * Navigation and the scroll tracker agree: once the window has come to rest
   * at the target of section k, the next scroll event highlights section k,
   * provided every later section starts more than 50 px (the threshold minus
   * the anchor offset) below section k. It assumes that
   *  - each section's offsetTop is its offset from the top of the document,
   *    which holds only when no ancestor of the sections is positioned, so
   *    that the document is their offsetParent;
   *  - the viewport-relative tops are those offsets minus the scroll offset
   *    (ViewportTops);
   *  - the browser did not cap the target at the document's scroll range.
   */
  lemma NavigationHighlightsTarget(offsets: seq<real>, k: nat, scrollY: real, prev: string)
    requires |offsets| == |Sections| && k < |Sections|
    requires forall j :: k < j < |Sections| ==> offsets[j] > offsets[k] + (Threshold - AnchorOffset)
    ensures NextActive(prev, ViewportTops(offsets, ScrollAfterClick(scrollY, Some(offsets[k])))) == Sections[k]
  {
  }
}
