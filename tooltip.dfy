/**
 * The hover tooltip of an inline term: where it is placed when the pointer
 * enters the term, and whether it is shown. Placement centres the tooltip
 * over the term, keeps it off the left and right edges, puts it above the
 * term unless that would cross the top padding line (then below), and last of
 * all pulls it up if its bottom would pass the bottom padding line.
 */
module Tooltip {
  import opened Wrappers
  import Terms

  /** Distance kept from every viewport edge. */
  const Padding: real := 16.0

  /** Gap between the term and the tooltip. */
  const Gap: real := 12.0

  /** A bounding rectangle in viewport coordinates. */
  datatype Rect = Rect(left: real, top: real, width: real, height: real)
  {
    function Bottom(): real { top + height }
  }

  /** Everything placement measures: the term, the tooltip and the viewport size. */
  datatype Geometry = Geometry(trigger: Rect, tooltip: Rect, viewportWidth: real, viewportHeight: real)

  /** A tooltip position, as written to its inline style. */
  datatype Pos = Pos(top: real, left: real)

  /** The left edge that centres the tooltip horizontally on the term. */
  function CenteredLeft(g: Geometry): (left: real)
    ensures left + g.tooltip.width / 2.0 == g.trigger.left + g.trigger.width / 2.0
  {
    g.trigger.left + g.trigger.width / 2.0 - g.tooltip.width / 2.0
  }

  /**
   * Keeps a left edge off both side paddings. The left padding is tested
   * first; in a viewport narrower than the tooltip plus both paddings only the
   * tested side is guaranteed, and the right clamp may push the left edge past
   * the left padding line.
   */
  function ClampLeft(left: real, width: real, viewportWidth: real): (r: real)
    ensures viewportWidth >= width + 2.0 * Padding ==> Padding <= r && r + width <= viewportWidth - Padding
    ensures Padding <= left && left + width <= viewportWidth - Padding ==> r == left
    ensures left < Padding ==> r == Padding
  {
    if left < Padding then Padding
    else if left + width > viewportWidth - Padding then viewportWidth - width - Padding
    else left
  }

  /** The top edge that puts the tooltip's bottom a gap above the term. */
  function AboveTop(g: Geometry): (top: real)
    ensures top + g.tooltip.height + Gap == g.trigger.top
  {
    g.trigger.top - g.tooltip.height - Gap
  }

  /** Pulls a top edge up so that the tooltip's bottom does not pass the bottom padding line. */
  function ClampBottom(top: real, height: real, viewportHeight: real): (r: real)
    ensures r <= top
    ensures r + height <= viewportHeight - Padding
    ensures top + height <= viewportHeight - Padding ==> r == top
    ensures top + height > viewportHeight - Padding ==> r + height == viewportHeight - Padding
  {
    if top + height > viewportHeight - Padding then viewportHeight - height - Padding else top
  }

  /**
   * The position computed on pointer entry: the horizontal clamp, then the
   * flip below the term when the above placement crosses the top padding
   * line, then the bottom clamp.
   */
  function TooltipPos(g: Geometry): (p: Pos)
    ensures p.top + g.tooltip.height <= g.viewportHeight - Padding
    ensures g.viewportWidth >= g.tooltip.width + 2.0 * Padding ==>
              Padding <= p.left && p.left + g.tooltip.width <= g.viewportWidth - Padding
  {
    var above := AboveTop(g);
    var flipped := if above < Padding then g.trigger.Bottom() + Gap else above;
    Pos(ClampBottom(flipped, g.tooltip.height, g.viewportHeight),
        ClampLeft(CenteredLeft(g), g.tooltip.width, g.viewportWidth))
  }

  /**
   * With a wide enough viewport the horizontal clamp moves the tooltip no
   * further than it must: no position inside the allowed band is closer to
   * the centred one.
   */
  lemma ClampLeftIsNearest(left: real, width: real, viewportWidth: real, x: real)
    requires viewportWidth >= width + 2.0 * Padding
    requires Padding <= x && x + width <= viewportWidth - Padding
    ensures Abs(ClampLeft(left, width, viewportWidth) - left) <= Abs(x - left)
  {
  }

  /** Distance from zero, for comparing how far the clamp moves an edge. */
  function Abs(x: real): (r: real)
    ensures r >= 0.0 && (r == x || r == -x)
  {
    if x < 0.0 then -x else x
  }

  /**
   * The vertical decisions happen in a fixed order: above when it fits, else
   * below when that fits, and the bottom clamp last, overriding the flip.
   */
  lemma VerticalPlacementOrder(g: Geometry)
    ensures var above := g.trigger.top - g.tooltip.height - Gap;
            var below := g.trigger.Bottom() + Gap;
            var limit := g.viewportHeight - g.tooltip.height - Padding;
            var top := TooltipPos(g).top;
            (above >= Padding && above <= limit ==> top == above) &&
            (above < Padding && below <= limit ==> top == below) &&
            (above < Padding && below > limit ==> top == limit) &&
            (above >= Padding && above > limit ==> top == limit)
  {
  }

  /**
   * The top edge lies inside the viewport's padding band whenever the
   * viewport is tall enough for the tooltip and the term ends at least 4 px
   * below the viewport top (always so for a term under the pointer whose
   * lower edge is visible past the padding line minus the gap).
   */
  lemma TopWithinPadding(g: Geometry)
    requires g.viewportHeight >= g.tooltip.height + 2.0 * Padding
    requires g.trigger.Bottom() + Gap >= Padding
    ensures TooltipPos(g).top >= Padding
  {
  }

  /** An example: a term at (100, 40) of size 50 x 20 with a 200 x 60 tooltip in an 800 x 600 viewport flips below. */
  lemma WorkedExampleFlipsBelow()
    ensures TooltipPos(Geometry(Rect(100.0, 40.0, 50.0, 20.0), Rect(0.0, 0.0, 200.0, 60.0), 800.0, 600.0)) == Pos(72.0, 25.0)
  {
  }

  /** A term near the right edge: the tooltip's right edge lands exactly on the padding line. */
  lemma RightEdgeClamp(g: Geometry)
    requires CenteredLeft(g) >= Padding
    requires CenteredLeft(g) + g.tooltip.width > g.viewportWidth - Padding
    ensures TooltipPos(g).left == g.viewportWidth - g.tooltip.width - Padding
  {
  }

  /**
   * One term's tooltip: the glossary key it explains, whether it is shown and
   * where. The term's measurement references may not be attached yet;
   * MouseEnter then receives None.
   */
  class TermTip {
    const term: string
    var show: bool
    var top: real
    var left: real

    constructor(term: string)
      ensures this.term == term
      ensures !show && top == 0.0 && left == 0.0
    {
      this.term := term;
      show := false;
      top, left := 0.0, 0.0;
    }

    /**
     * The tooltip's text, read from the glossary as the page declares it: the
     * term's definition when it has one, the placeholder otherwise.
     */
    function Text(): (text: string)
      ensures text != ""
      ensures term in Terms.Definitions ==> text == Terms.Definitions[term] && text != Terms.Placeholder
      ensures term !in Terms.Definitions ==> text == Terms.Placeholder
    {
      Terms.Lookup(Terms.Definitions, term)
    }

    /** Pointer enters the term: place the tooltip when measurable, then show it. */
    method MouseEnter(geom: Option<Geometry>)
      modifies this
      ensures show
      ensures geom.None? ==> top == old(top) && left == old(left)
      ensures geom.Some? ==> Pos(top, left) == TooltipPos(geom.value)
      ensures geom.Some? ==> top + geom.value.tooltip.height <= geom.value.viewportHeight - Padding
    {
      if geom.Some? {
        var g := geom.value;
        var l := g.trigger.left + g.trigger.width / 2.0 - g.tooltip.width / 2.0;
        var t := g.trigger.top - g.tooltip.height - Gap;

        if l < Padding {
          l := Padding;
        } else if l + g.tooltip.width > g.viewportWidth - Padding {
          l := g.viewportWidth - g.tooltip.width - Padding;
        }

        if t < Padding {
          t := g.trigger.Bottom() + Gap;
        }

        if t + g.tooltip.height > g.viewportHeight - Padding {
          t := g.viewportHeight - g.tooltip.height - Padding;
        }

        top, left := t, l;
      }
      show := true;
    }

    /** Pointer leaves the term: hide the tooltip, keep its position. */
    method MouseLeave()
      modifies this
      ensures !show
      ensures top == old(top) && left == old(left)
    {
      show := false;
    }
  }

  /** Entering and then leaving a term leaves its tooltip hidden, at the position entry computed. */
  method EnterThenLeave(tip: TermTip, geom: Option<Geometry>)
    modifies tip
    ensures !tip.show
    ensures geom.None? ==> tip.top == old(tip.top) && tip.left == old(tip.left)
    ensures geom.Some? ==> Pos(tip.top, tip.left) == TooltipPos(geom.value)
  {
    tip.MouseEnter(geom);
    tip.MouseLeave();
  }
}
