/** Tooltip placement for the region maps. The tooltip is centred
    horizontally on the region's top-centre as seen on screen and sits 15 px
    above it; the adventures and discovery maps flip it below the region
    when its top edge would land above the 80 px of chrome over the map or
    above the container. */
module Tooltip {
  import opened Geometry

  /** Distance between the tooltip and the anchor. */
  const Gap: real := 15.0

  /** Screen height of the tabs and padding above the map. */
  const MinVisibleTop: real := 80.0

  /** What a mouseover reads from the DOM: the path's box, the screen
      matrix, the client rectangle positions are measured from, and the
      tooltip's size once its text is set. */
  datatype HoverGeometry = HoverGeometry(bbox: BBox, ctm: Matrix, container: Rect, tipWidth: real, tipHeight: real)

  /** The region's top-centre on screen. */
  function ScreenAnchor(g: HoverGeometry): Point {
    Apply(g.ctm, TopCentre(g.bbox))
  }

  /** Position relative to the container, and whether the `tooltip-below`
      class is set. */
  datatype Placement = Placement(left: real, top: real, below: bool)

  /** What the tooltip element shows: its display, text, position and class. */
  datatype TooltipState = TooltipState(visible: bool, text: string, left: real, top: real, below: bool)

  const InitialTooltip: TooltipState := TooltipState(false, "", 0.0, 0.0, false)

  /** The tooltip displayed with `text` at `p`. */
  function Show(text: string, p: Placement): (t: TooltipState)
    ensures t.visible && t.text == text
    ensures t.left == p.left && t.top == p.top && t.below == p.below
  {
    TooltipState(true, text, p.left, p.top, p.below)
  }

  /** `display: none`: everything else about the tooltip stays. */
  function Hide(t: TooltipState): (h: TooltipState)
    ensures !h.visible
    ensures h.text == t.text && h.left == t.left && h.top == t.top && h.below == t.below
  {
    t.(visible := false)
  }

  /** Placement of src/App.js: always above the anchor. `anchor` is the
      screen point of the region's top-centre, `origin` the container's
      client rectangle, `width` and `height` the tooltip's measured size. */
  function PlaceAbove(anchor: Point, origin: Rect, width: real, height: real): (p: Placement)
    ensures !p.below
    ensures p.left + width / 2.0 == anchor.x - origin.left
    ensures p.top + height + Gap == anchor.y - origin.top
  {
    Placement(anchor.x - origin.left - width / 2.0, anchor.y - origin.top - height - Gap, false)
  }

  /** The flip test: the tooltip's top edge on screen would fall under the
      visible minimum, or its top in the container would be negative. */
  predicate FlipsBelow(anchor: Point, origin: Rect, height: real) {
    anchor.y - height - Gap < MinVisibleTop || anchor.y - origin.top - height - Gap < 0.0
  }

  /** Placement of the adventures and discovery maps: above the anchor
      unless that would be cut off, else 15 px below the box, whose height
      `boxHeight` is added as it is (in the SVG's own units). */
  function PlaceFlipping(anchor: Point, origin: Rect, width: real, height: real, boxHeight: real): (p: Placement)
    ensures p.left + width / 2.0 == anchor.x - origin.left
    ensures p.below <==> FlipsBelow(anchor, origin, height)
    ensures !p.below ==> p.top >= 0.0 && anchor.y - height - Gap >= MinVisibleTop
    ensures p.below ==> p.top == anchor.y - origin.top + boxHeight + Gap
  {
    var above := PlaceAbove(anchor, origin, width, height);
    if FlipsBelow(anchor, origin, height) then
      Placement(above.left, anchor.y - origin.top + boxHeight + Gap, true)
    else
      above
  }

  /** Where the flipping placement keeps the tooltip above, it is exactly the
      placement of the plain map; the horizontal position never depends on
      the flip. */
  lemma FlippingRefinesAbove(anchor: Point, origin: Rect, width: real, height: real, boxHeight: real)
    ensures PlaceFlipping(anchor, origin, width, height, boxHeight).left
            == PlaceAbove(anchor, origin, width, height).left
    ensures !FlipsBelow(anchor, origin, height) ==>
              PlaceFlipping(anchor, origin, width, height, boxHeight) == PlaceAbove(anchor, origin, width, height)
  {
  }

  /** A flipped tooltip lies lower than the unflipped one would, by the
      tooltip's height, the box height and both gaps. */
  lemma FlipMovesDown(anchor: Point, origin: Rect, width: real, height: real, boxHeight: real)
    requires FlipsBelow(anchor, origin, height)
    ensures PlaceFlipping(anchor, origin, width, height, boxHeight).top
            == PlaceAbove(anchor, origin, width, height).top + height + boxHeight + 2.0 * Gap
  {
  }
}
