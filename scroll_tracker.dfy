/**
 * The page's scroll tracker: on every scroll event it recomputes the reading
 * progress shown by the progress bar and picks the section highlighted in the
 * sidebar. The section choice keeps the previous value when no section has
 * reached the threshold, so the tracker is a small state machine.
 */
module ScrollTracker {
  import opened Wrappers

  /** The five section ids, in document order. */
  const Sections: seq<string> := ["intro", "principles", "players", "moderators", "faq"]

  /** A section counts as reached when its top edge is at most this far below the viewport top. */
  const Threshold: real := 150.0

  /** The section highlighted before the first scroll event. */
  const InitialSection: string := "intro"

  /**
   * Reading progress in percent, from the scroll offset and the scrollable
   * height (document height minus viewport height).
   */
  function Progress(scrollTop: real, height: real): (p: real)
    requires height > 0.0
    ensures p * height == scrollTop * 100.0
    ensures 0.0 <= scrollTop <= height ==> 0.0 <= p <= 100.0
    ensures scrollTop == 0.0 ==> p == 0.0
    ensures scrollTop == height ==> p == 100.0
  {
    scrollTop / height * 100.0
  }

  /** More scrolling never shows less progress. */
  lemma ProgressMonotone(a: real, b: real, height: real)
    requires height > 0.0
    requires a <= b
    ensures Progress(a, height) <= Progress(b, height)
  {
    assert Progress(b, height) - Progress(a, height) == (b - a) / height * 100.0;
  }

  /** A measured section qualifies when its element exists and its top is at or above the threshold. */
  predicate Qualifies(top: Option<real>)
  {
    top.Some? && top.value <= Threshold
  }

  /**
   * The last qualifying section among the first k measurements, scanning from
   * index k - 1 down to 0; None when none of them qualifies.
   */
  function LastQualifying(tops: seq<Option<real>>, k: nat): (r: Option<nat>)
    requires k <= |tops|
    ensures r.Some? ==> r.value < k && Qualifies(tops[r.value])
    ensures r.Some? ==> forall j :: r.value < j < k ==> !Qualifies(tops[j])
    ensures r.None? ==> forall j :: 0 <= j < k ==> !Qualifies(tops[j])
  {
    if k == 0 then None
    else if Qualifies(tops[k - 1]) then Some(k - 1)
    else LastQualifying(tops, k - 1)
  }

  /** The section index the scan selects for one set of measurements, if any. */
  function SelectActive(tops: seq<Option<real>>): (r: Option<nat>)
    requires |tops| == |Sections|
    ensures r.Some? <==> exists j :: 0 <= j < |tops| && Qualifies(tops[j])
    ensures r.Some? ==> r.value < |Sections| && Qualifies(tops[r.value])
    ensures r.Some? ==> forall j :: r.value < j < |tops| ==> !Qualifies(tops[j])
  {
    LastQualifying(tops, |tops|)
  }

  /**
   * The active section after one scroll event: the selected section, or the
   * previous one when the scan selects nothing.
   */
  function NextActive(prev: string, tops: seq<Option<real>>): (r: string)
    requires |tops| == |Sections|
    ensures prev in Sections ==> r in Sections
    ensures (forall j :: 0 <= j < |tops| ==> !Qualifies(tops[j])) ==> r == prev
    ensures forall i :: 0 <= i < |tops| && Qualifies(tops[i]) && (forall j :: i < j < |tops| ==> !Qualifies(tops[j]))
              ==> r == Sections[i]
  {
    match SelectActive(tops)
    case Some(i) => Sections[i]
    case None => prev
  }

  /** Every scroll event delivers one measurement per section. */
  predicate WellMeasured(events: seq<seq<Option<real>>>)
  {
    forall e :: 0 <= e < |events| ==> |events[e]| == |Sections|
  }

  /**
   * The active section after a whole sequence of scroll events, starting from
   * prev; from InitialSection it is always one of the five ids.
   */
  function ActiveAfter(prev: string, events: seq<seq<Option<real>>>): (r: string)
    requires WellMeasured(events)
    ensures prev in Sections ==> r in Sections
  {
    if events == [] then prev
    else NextActive(ActiveAfter(prev, events[..|events| - 1]), events[|events| - 1])
  }

  /**
   * Carry-over across events: the active section is the one chosen by the most
   * recent event whose scan selected something, and the starting value when no
   * event ever did.
   */
  lemma {:induction false} LatestSelectionWins(prev: string, events: seq<seq<Option<real>>>)
    requires WellMeasured(events)
    ensures (forall e :: 0 <= e < |events| ==> SelectActive(events[e]).None?) ==> ActiveAfter(prev, events) == prev
    ensures forall e :: 0 <= e < |events| && SelectActive(events[e]).Some?
                        && (forall f :: e < f < |events| ==> SelectActive(events[f]).None?)
              ==> ActiveAfter(prev, events) == Sections[SelectActive(events[e]).value]
  {
    if events != [] {
      var n := |events| - 1;
      var front := events[..n];
      assert WellMeasured(front) by {
        forall e | 0 <= e < |front| ensures |front[e]| == |Sections| {
          assert front[e] == events[e];
        }
      }
      LatestSelectionWins(prev, front);
      forall e | 0 <= e < n ensures front[e] == events[e] { }
    }
  }

  /** The page's tracked state: the highlighted section and the progress-bar width. */
  class Page {
    var activeSection: string
    var scrollProgress: real

    ghost predicate Valid()
      reads this
    {
      activeSection in Sections
    }

    constructor()
      ensures Valid()
      ensures activeSection == InitialSection && scrollProgress == 0.0
    {
      activeSection := InitialSection;
      scrollProgress := 0.0;
    }

    /**
     * One scroll event. scrollTop, scrollHeight and clientHeight are the
     * document element's measurements; tops[i] is the top of the element with
     * id Sections[i] relative to the viewport, None when it does not exist.
     */
    method OnScroll(scrollTop: real, scrollHeight: real, clientHeight: real, tops: seq<Option<real>>)
      requires Valid()
      requires scrollHeight > clientHeight
      requires |tops| == |Sections|
      modifies this
      ensures Valid()
      ensures scrollProgress == Progress(scrollTop, scrollHeight - clientHeight)
      ensures activeSection == NextActive(old(activeSection), tops)
    {
      var height := scrollHeight - clientHeight;
      scrollProgress := scrollTop / height * 100.0;

      var i := |Sections|;
      while i > 0
        invariant 0 <= i <= |Sections|
        invariant activeSection == old(activeSection)
        invariant forall j :: i <= j < |Sections| ==> !Qualifies(tops[j])
      {
        i := i - 1;
        var top := tops[i];
        if top.Some? && top.value <= Threshold {
          activeSection := Sections[i];
          break;
        }
      }
    }
  }

  /**
   * An example: section tops at -600, -100, 50, 900 and 1700 select "players", whatever was active before.
   */
  lemma WorkedExampleSelectsPlayers(prev: string)
    ensures NextActive(prev, [Some(-600.0), Some(-100.0), Some(50.0), Some(900.0), Some(1700.0)]) == "players"
  {
    var tops := [Some(-600.0), Some(-100.0), Some(50.0), Some(900.0), Some(1700.0)];
    assert Qualifies(tops[2]) && !Qualifies(tops[3]) && !Qualifies(tops[4]);
  }
}
