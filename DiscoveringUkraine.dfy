/** The discovery map (src/components/DiscoveringUkraine.js): every region
    in its own colour, a text label at the centre of each region's box, a
    per-path cache of boxes, cached screen matrix and rectangles refreshed
    on resize, a flipping tooltip measured against the outer map container,
    and the click alert. */
module DiscoveringUkraine {
  import opened Common
  import opened Seqs
  import opened Catalog
  import opened Geometry
  import opened Tooltip
  import opened MapSurface

  /** A region label: the region's name, its display text and its centre
      in SVG coordinates. */
  datatype Label = Label(name: string, text: string, x: real, y: real)

  /** A child of the SVG element: one of the labels this component adds,
      or anything else the map file contains. */
  datatype SvgNode = TextLabel(item: Label) | Drawing(tag: string)

  predicate IsLabelNode(n: SvgNode) {
    n.TextLabel?
  }

  predicate IsDrawing(n: SvgNode) {
    n.Drawing?
  }

  /** The label of a path with the given name and box. */
  function LabelFor(name: string, box: BBox): (l: Label)
    ensures l.name == name && l.text == TextOf(RainbowCatalog, name)
    ensures l.x - box.x == box.x + box.width - l.x
    ensures l.y - box.y == box.y + box.height - l.y
    ensures box.width >= 0.0 && box.height >= 0.0 ==>
              box.x <= l.x <= box.x + box.width && box.y <= l.y <= box.y + box.height
  {
    var c := Centre(box);
    Label(name, TextOf(RainbowCatalog, name), c.x, c.y)
  }

  /** The `<text class="region-text-label">` elements for `labels`, in order. */
  function LabelNodes(labels: seq<Label>): (r: seq<SvgNode>)
    ensures |r| == |labels|
    ensures forall i :: 0 <= i < |labels| ==> r[i] == TextLabel(labels[i])
  {
    if labels == [] then [] else [TextLabel(labels[0])] + LabelNodes(labels[1..])
  }

  /** The children without the added labels. */
  function StripLabels(children: seq<SvgNode>): seq<SvgNode> {
    Filter(children, IsDrawing)
  }

  /** `addLabelsToSVG`: old labels removed, the current ones appended. */
  function WithLabels(children: seq<SvgNode>, labels: seq<Label>): seq<SvgNode> {
    StripLabels(children) + LabelNodes(labels)
  }

  /** Adding the labels leaves the other children as they were, in order,
      and the result holds exactly the current labels, in order. */
  lemma WithLabelsContents(children: seq<SvgNode>, labels: seq<Label>)
    ensures StripLabels(WithLabels(children, labels)) == StripLabels(children)
    ensures Filter(WithLabels(children, labels), IsLabelNode) == LabelNodes(labels)
    ensures |Filter(WithLabels(children, labels), IsLabelNode)| == |labels|
  {
    var kept, added := StripLabels(children), LabelNodes(labels);
    FilterAppend(kept, added, IsDrawing);
    FilterAppend(kept, added, IsLabelNode);
    FilterIdempotent(children, IsDrawing);
    FilterDropsAll(added, IsDrawing);
    FilterKeepsAll(added, IsLabelNode);
    FilterDropsAll(kept, IsLabelNode);
  }

  /** Adding the same labels twice gives the same children as once: labels
      never pile up. */
  lemma AddLabelsIdempotent(children: seq<SvgNode>, labels: seq<Label>)
    ensures WithLabels(WithLabels(children, labels), labels) == WithLabels(children, labels)
  {
    WithLabelsContents(children, labels);
  }

  /** The set-up loop over the named paths: each path's box goes into the
      cache under the path, and its label is collected. */
  method IndexPaths(names: seq<string>, boxes: seq<BBox>) returns (cache: map<nat, BBox>, labels: seq<Label>)
    requires |boxes| == |names|
    ensures forall i: nat :: i in cache <==> i < |names|
    ensures forall i :: 0 <= i < |names| ==> cache[i] == boxes[i]
    ensures |labels| == |names|
    ensures forall i :: 0 <= i < |names| ==> labels[i] == LabelFor(names[i], boxes[i])
  {
    cache := map[];
    labels := [];
    var i := 0;
    while i < |names|
      invariant 0 <= i <= |names|
      invariant forall k: nat :: k in cache <==> k < i
      invariant forall k :: 0 <= k < i ==> cache[k] == boxes[k]
      invariant |labels| == i
      invariant forall k :: 0 <= k < i ==> labels[k] == LabelFor(names[k], boxes[k])
    {
      cache := cache[i := boxes[i]];
      labels := labels + [LabelFor(names[i], boxes[i])];
      i := i + 1;
    }
  }

  /** The removal loop of `addLabelsToSVG`: every existing label goes. */
  method RemoveLabels(children: seq<SvgNode>) returns (kept: seq<SvgNode>)
    ensures kept == StripLabels(children)
  {
    kept := [];
    var i := 0;
    while i < |children|
      invariant 0 <= i <= |children|
      invariant kept == Filter(children[..i], IsDrawing)
    {
      FilterSnoc(children[..i], children[i], IsDrawing);
      assert children[..i + 1] == children[..i] + [children[i]];
      if IsDrawing(children[i]) {
        kept := kept + [children[i]];
      }
      i := i + 1;
    }
    assert children[..i] == children;
  }

  class DiscoveringMap {
    const surface: HoverSurface
    var pathCache: map<nat, BBox>
    var labels: seq<Label>
    var children: seq<SvgNode>
    var cachedCTM: Option<Matrix>
    var cachedContainerRect: Option<Rect>
    var cachedMapRect: Option<Rect>
    var tooltip: TooltipState

    /** The shared hover invariant, over the colour catalog, and a cached
        box for every path. */
    ghost predicate Valid()
      reads this, surface
    {
      && surface.Valid() && surface.cat == RainbowCatalog
      && forall i: nat :: i < |surface.names| ==> i in pathCache
    }

    /** Mounting: the cache is filled from the DOM (the matrix may be
        missing), the paths are styled and indexed, and the labels added. */
    constructor (names: seq<string>, boxes: seq<BBox>, content: seq<SvgNode>,
                 ctm: Option<Matrix>, containerRect: Rect, mapRect: Rect)
      requires |boxes| == |names|
      ensures Valid() && fresh(surface)
      ensures surface.names == names && surface.hovered == None
      ensures forall i :: 0 <= i < |names| ==> surface.styles[i].fill == FillOf(RainbowCatalog, names[i])
      ensures cachedCTM == ctm && cachedContainerRect == Some(containerRect) && cachedMapRect == Some(mapRect)
      ensures forall i :: 0 <= i < |names| ==> pathCache[i] == boxes[i]
      ensures |labels| == |names|
      ensures forall i :: 0 <= i < |names| ==> labels[i] == LabelFor(names[i], boxes[i])
      ensures children == WithLabels(content, labels)
      ensures tooltip == InitialTooltip
    {
      surface := new HoverSurface(RainbowCatalog, names);
      cachedCTM := ctm;
      cachedContainerRect := Some(containerRect);
      cachedMapRect := Some(mapRect);
      tooltip := InitialTooltip;
      var cache, found := IndexPaths(names, boxes);
      pathCache := cache;
      labels := found;
      var kept := RemoveLabels(content);
      children := kept;
      new;
      AddLabelNodes();
    }

    /** The appending loop of `addLabelsToSVG`. */
    method AddLabelNodes()
      modifies this
      ensures children == old(children) + LabelNodes(labels)
      ensures labels == old(labels) && pathCache == old(pathCache) && tooltip == old(tooltip)
      ensures cachedCTM == old(cachedCTM) && cachedContainerRect == old(cachedContainerRect)
      ensures cachedMapRect == old(cachedMapRect)
    {
      var j := 0;
      while j < |labels|
        invariant 0 <= j <= |labels|
        invariant children == old(children) + LabelNodes(labels[..j])
        invariant labels == old(labels) && pathCache == old(pathCache) && tooltip == old(tooltip)
        invariant cachedCTM == old(cachedCTM) && cachedContainerRect == old(cachedContainerRect)
        invariant cachedMapRect == old(cachedMapRect)
      {
        assert LabelNodes(labels[..j + 1]) == LabelNodes(labels[..j]) + [TextLabel(labels[j])];
        children := children + [TextLabel(labels[j])];
        j := j + 1;
      }
      assert labels[..j] == labels;
    }

    /** `updateCache`, also run on every window resize; it does nothing
        once the component's containers are gone. */
    method UpdateCache(mounted: bool, ctm: Option<Matrix>, containerRect: Rect, mapRect: Rect)
      requires Valid()
      modifies this
      ensures Valid()
      ensures pathCache == old(pathCache) && labels == old(labels) && children == old(children)
      ensures tooltip == old(tooltip)
      ensures !mounted ==>
                cachedCTM == old(cachedCTM) && cachedContainerRect == old(cachedContainerRect)
                && cachedMapRect == old(cachedMapRect)
      ensures mounted ==>
                cachedCTM == ctm && cachedContainerRect == Some(containerRect) && cachedMapRect == Some(mapRect)
    {
      if !mounted {
        return;
      }
      cachedCTM := ctm;
      cachedContainerRect := Some(containerRect);
      cachedMapRect := Some(mapRect);
    }

    /** `handleMouseOver`: the highlight always moves; the tooltip is only
        updated when a matrix and the map rectangle are cached, from the
        path's cached box, against the map container. */
    method MouseOver(target: Option<nat>, tipWidth: real, tipHeight: real)
      requires Valid()
      requires target.Some? ==> target.value < |surface.names|
      modifies this, surface
      ensures Valid()
      ensures pathCache == old(pathCache) && labels == old(labels) && children == old(children)
      ensures cachedCTM == old(cachedCTM) && cachedContainerRect == old(cachedContainerRect)
      ensures cachedMapRect == old(cachedMapRect)
      ensures target.None? ==>
                surface.styles == old(surface.styles) && surface.hovered == old(surface.hovered)
                && tooltip == old(tooltip)
      ensures target.Some? ==>
                && surface.hovered == target
                && surface.styles == surface.EnterStyles(old(surface.styles), old(surface.hovered), target.value)
                && surface.Highlighted() == {target.value}
      ensures target.Some? && (cachedCTM.None? || cachedMapRect.None?) ==> tooltip == old(tooltip)
      ensures target.Some? && cachedCTM.Some? && cachedMapRect.Some? ==>
                var box := pathCache[target.value];
                tooltip == Show(TextOf(RainbowCatalog, surface.names[target.value]),
                                PlaceFlipping(Apply(cachedCTM.value, TopCentre(box)), cachedMapRect.value,
                                              tipWidth, tipHeight, box.height))
    {
      if target.None? {
        return;
      }
      var p := target.value;
      surface.Enter(p);
      if cachedCTM.Some? && cachedMapRect.Some? {
        var box := pathCache[p];
        var anchor := Apply(cachedCTM.value, TopCentre(box));
        tooltip := Show(TextOf(RainbowCatalog, surface.names[p]),
                        PlaceFlipping(anchor, cachedMapRect.value, tipWidth, tipHeight, box.height));
      }
    }

    /** `handleMouseOut`. */
    method MouseOut(target: Option<nat>)
      requires Valid()
      requires target.Some? ==> target.value < |surface.names|
      modifies this, surface
      ensures Valid()
      ensures pathCache == old(pathCache) && labels == old(labels) && children == old(children)
      ensures cachedCTM == old(cachedCTM) && cachedContainerRect == old(cachedContainerRect)
      ensures cachedMapRect == old(cachedMapRect)
      ensures target.None? ==>
                surface.styles == old(surface.styles) && surface.hovered == old(surface.hovered)
                && tooltip == old(tooltip)
      ensures target.Some? ==>
                && surface.styles == old(surface.styles)[target.value := RestStyle(RainbowCatalog, surface.names[target.value])]
                && surface.hovered == (if old(surface.hovered) == target then None else old(surface.hovered))
                && surface.Highlighted() == old(surface.Highlighted()) - {target.value}
                && tooltip == Hide(old(tooltip))
    {
      if target.None? {
        return;
      }
      surface.Leave(target.value);
      tooltip := Hide(tooltip);
    }

    /** `handleClick`: the alert names the region as the tooltip does. */
    method Click(target: Option<nat>) returns (message: Option<string>)
      requires Valid()
      requires target.Some? ==> target.value < |surface.names|
      ensures target.None? ==> message.None?
      ensures target.Some? ==>
                message == Some("You clicked on: " + TextOf(RainbowCatalog, surface.names[target.value]))
    {
      if target.None? {
        return None;
      }
      var name := surface.names[target.value];
      ClickTextMatchesTooltip(RainbowCatalog, name);
      message := Some(ClickMessage(RainbowCatalog, name));
    }
  }
}
