# TeeFusion rules page: scroll tracker and term tooltips

The TeeFusion rules page is a single React page. It renders the community's
rules and FAQ. Apart from static text, it does three things, and this project
models them in Dafny:

- **Scroll tracker** (`ScrollTracker`). On every scroll event the page sets
  the progress bar to the scroll offset as a percentage of the scrollable
  height. It then picks the section to highlight in the sidebar. The scan runs
  over the five section ids (`intro`, `principles`, `players`, `moderators`,
  `faq`) from last to first. The first section whose element exists and whose
  top is at most 150 px below the viewport top wins. When no section
  qualifies, the previous highlight stays. The initial highlight is `intro`.
  The `Page` class holds the two pieces of state. `Page.OnScroll` runs the scan
  as a loop and is proved against the specification functions `SelectActive`
  and `NextActive`. `ActiveAfter` folds a whole sequence of scroll events.
- **Navigation** (`Navigation`). A sidebar click scrolls the window so that
  the section anchor sits 100 px below the viewport top. A missing anchor does
  nothing. A lemma ties this to the scroll tracker: after navigating to a
  section, the next scroll event highlights that section, as long as every
  later section starts more than 50 px further down. The lemma rests on a
  layout assumption, listed under "Left out".
- **Term tooltips** (`Tooltip`, `Terms`). Hovering an inline term places its
  tooltip as follows:
  - centred on the term, then clamped to 16 px from the left and right edges;
  - 12 px above the term, flipped to 12 px below when that would cross the
    top padding line;
  - finally pulled up whenever its bottom would pass the bottom padding line.

  Then the tooltip is shown. Leaving the term hides it and keeps the position.
  The `TermTip` class holds `show`, `top` and `left`. `MouseEnter` performs the
  clamps step by step and is proved equal to the function `TooltipPos`. The
  text comes from a fixed glossary, with a placeholder for unknown keys.

Geometry is modelled with `real`: pixel values are exact, with no
floating-point rounding. DOM measurements are parameters. The element tops,
the scroll metrics, the term and tooltip rectangles and the viewport size are
all inputs. A missing element or ref is `None`.

Two properties of the code shape what the model claims:

- The progress computation divides by the scrollable height without a guard.
  When the document fits in the viewport that height is 0, and the result is
  NaN or Infinity. The model requires a positive scrollable height and does
  not invent a value for the other case.
- Tooltip placement always keeps the bottom edge on or above the bottom
  padding line. In a viewport at least the tooltip's width plus 32 px wide it
  also keeps both sides within the side paddings. The top edge has no such
  unconditional bound. `TopWithinPadding` proves it on or below the top
  padding line whenever both of these hold: the viewport is at least the
  tooltip's height plus 32 px tall, and the term's bottom edge is at least
  4 px below the viewport top. These conditions are sufficient, not necessary.
  For example, the top is also on or below the line whenever the above
  placement fits.

## Model

| member | source | states |
|---|---|---|
| `ScrollTracker.Progress` | src/App.jsx:12-14 | progress × height = offset × 100; for offsets within the scrollable height it lies in [0,100], 0 at the top and 100 at the bottom |
| `ScrollTracker.ProgressMonotone` | src/App.jsx:12-14 | scrolling further never lowers the progress |
| `ScrollTracker.Qualifies` | src/App.jsx:18-19 | a section qualifies exactly when its element exists and its top is at most 150 px below the viewport top |
| `ScrollTracker.LastQualifying` | src/App.jsx:16-22 | scanning indices k-1 down to 0, the chosen index qualifies (element exists, top ≤ 150) and no later index among the first k does; None exactly when none qualifies |
| `ScrollTracker.SelectActive` | src/App.jsx:16-22 | a section is selected iff some section qualifies; the selected one qualifies and every section after it in document order is missing or below the threshold |
| `ScrollTracker.NextActive` | src/App.jsx:17-23 | the highlight after one event is the last qualifying section, or the previous highlight when none qualifies; it stays one of the five ids |
| `ScrollTracker.ActiveAfter` | src/App.jsx:7-23 | starting from a section id, the highlight after any sequence of events is one of the five ids |
| `ScrollTracker.LatestSelectionWins` | src/App.jsx:7-23 | across a sequence of events, the highlight is the section selected by the most recent event that selected anything, or the starting value when none did |
| `ScrollTracker.WorkedExampleSelectsPlayers` | src/App.jsx:16-22 | tops −600, −100, 50, 900, 1700 highlight `players` |
| `ScrollTracker.Page.constructor` | src/App.jsx:7-8 | the page starts with `intro` highlighted and progress 0 |
| `ScrollTracker.Page.OnScroll` | src/App.jsx:11-24 | the reverse loop with early exit sets the progress to `Progress` of the scroll metrics and the highlight to `NextActive` of the old one, keeping it a section id |
| `Navigation.ScrollTarget` | src/App.jsx:29-32 | a scroll is requested iff the anchor exists, and its target leaves the anchor exactly 100 px below the viewport top |
| `Navigation.ScrollAfterClick` | src/App.jsx:29-32 | after a click the anchor is 100 px below the viewport top; with no anchor the scroll offset is unchanged |
| `Navigation.NavigationHighlightsTarget` | src/App.jsx:16-32 | after navigating to section k, the next scroll event highlights k whenever every later section starts more than 50 px below it (under the layout assumption listed under "Left out") |
| `Tooltip.CenteredLeft` | src/App.jsx:511 | the tooltip's horizontal centre equals the term's |
| `Tooltip.ClampLeft` | src/App.jsx:514-519 | in a viewport at least tooltip width + 32 wide the left edge lies in [16, width − tooltip − 16]; an in-range edge is kept; an edge left of the padding becomes 16 |
| `Tooltip.ClampLeftIsNearest` | src/App.jsx:514-519 | the clamp moves the centred edge no further than any other allowed position would |
| `Tooltip.AboveTop` | src/App.jsx:512 | the default placement puts the tooltip's bottom 12 px above the term's top |
| `Tooltip.ClampBottom` | src/App.jsx:525-527 | the clamp only moves up; afterwards the bottom is at or above the bottom padding line, and exactly on it when it moved |
| `Tooltip.TooltipPos` | src/App.jsx:511-527 | the computed bottom never passes the bottom padding line; with a wide enough viewport the tooltip stays within both side paddings |
| `Tooltip.VerticalPlacementOrder` | src/App.jsx:512-527 | above when it fits; else below when that fits; the bottom clamp is applied last and overrides either choice |
| `Tooltip.TopWithinPadding` | src/App.jsx:512-527 | with a tall enough viewport and a term ending at least 4 px below the viewport top, the top edge is at or below the top padding line |
| `Tooltip.WorkedExampleFlipsBelow` | src/App.jsx:511-527 | term (100, 40, 50×20), tooltip 200×60, viewport 800×600: top 72 (flipped below), left 25 |
| `Tooltip.RightEdgeClamp` | src/App.jsx:511-519 | a centred tooltip overflowing on the right ends exactly on the right padding line |
| `Tooltip.TermTip.constructor` | src/App.jsx:486-488 | a new tooltip is hidden at (0, 0) |
| `Tooltip.TermTip.Text` | src/App.jsx:557 | the text is never empty; a term with a glossary entry shows that definition, never the placeholder; a term without one, such as `токсичности`, shows the placeholder |
| `Tooltip.TermTip.MouseEnter` | src/App.jsx:503-532 | the step-by-step clamps yield `TooltipPos`, so the bottom bound holds; without refs the position is unchanged; the tooltip is shown either way |
| `Tooltip.TermTip.MouseLeave` | src/App.jsx:534-536 | hides the tooltip and leaves its position untouched |
| `Tooltip.EnterThenLeave` | src/App.jsx:503-536 | entering then leaving ends hidden, at the position entry computed |
| `Terms.Lookup` | src/App.jsx:557 | the shown text is never empty; it is the definition when the key has a non-empty one, otherwise the placeholder |
| `Terms.InflectedKeyShowsPlaceholder` | src/App.jsx:128 | the page uses the key `токсичности`, which the glossary lacks, so its tooltip shows the placeholder |
| `Terms.EveryUsedTermDefined` | src/App.jsx:492-501 | with the missing key added, every term used on the page has a definition and every original key keeps its text |

## Findings

| source | as written | input that shows it | evidently intended | confidence | as-written member | corrected member |
|---|---|---|---|---|---|---|
| src/App.jsx:128 | the intro section's list of goals wraps "токсичности" in a term tooltip, but the glossary (src/App.jsx:492-501) has only "токсичность" and "токсиков" | hovering the word "токсичности" in the intro's goals list | the tooltip shows the definition of "токсичность", as the other inflected keys ("читеров", "токсиков") do | medium, not executed | `Terms.InflectedKeyShowsPlaceholder` | `Terms.EveryUsedTermDefined` |

`TermTip.Text` reads the glossary as written (`Terms.Definitions`), so it
shows the placeholder for this key. `Terms.CorrectedDefinitions` holds the
glossary the page evidently intended.

## Left out

- Rendering: the React components, the static JSX content (src/App.jsx:34-483), CSS, icons and the sidebar's class strings are display-only.
- Event wiring: listener registration and cleanup (src/App.jsx:25-26) and the `useState`/`useRef` machinery are replaced by class fields and method calls.
- DOM and window measurement (`getBoundingClientRect`, `document.documentElement`, `window.innerWidth`/`innerHeight`, `offsetTop`) become parameters, not calls.
- The smooth-scroll animation is left out. So is the browser's capping of a scroll target to the document's scroll range. Only the requested offset is modelled.
- Navigation.NavigationHighlightsTarget: assumes each section's `offsetTop` is its offset from the top of the document. That holds only when no ancestor of the sections (`.content`, `.main`, `.app`) is positioned, which the page's code does not guarantee. It also assumes the viewport-relative top is that offset minus the scroll offset (`Navigation.ViewportTops`).
- Floating point: values are exact reals, so rounding is not modelled.
- ScrollTracker.Progress: requires a positive scrollable height. The source divides by zero when the document fits the viewport, which yields NaN or Infinity.
- ScrollTracker.Page.OnScroll: requires `scrollHeight > clientHeight`, for the same reason.
- Terms.Lookup: keys inherited from a JavaScript object's prototype (such as `toString`) are not modelled. The page never passes such a key.
- Tooltip.ClampLeft: in a viewport narrower than the tooltip plus 32 px only the side that was tested is bounded, as in the source. No bound is claimed for the other side.
