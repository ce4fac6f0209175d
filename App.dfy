/** The plain region map (src/App.js): every region in the uniform fill,
    a highlight on hover, a tooltip always placed above the region, and an
    alert naming the clicked region. */
module App {
  import opened Common
  import opened Catalog
  import opened Geometry
  import opened Tooltip
  import opened MapSurface

  class PlainMap {
    const surface: HoverSurface
    var tooltip: TooltipState

    ghost predicate Valid()
      reads this, surface
    {
      surface.Valid() && surface.cat == UniformCatalog
    }

    /** Mounting: the styling loop leaves every path in the default fill. */
    constructor (names: seq<string>)
      ensures Valid() && fresh(surface)
      ensures surface.names == names && surface.hovered == None
      ensures forall i :: 0 <= i < |names| ==> surface.styles[i].fill == DefaultFill
      ensures tooltip == InitialTooltip
    {
      surface := new HoverSurface(UniformCatalog, names);
      tooltip := InitialTooltip;
      new;
      forall i | 0 <= i < |names|
        ensures surface.styles[i].fill == DefaultFill
      {
        UniformFillIsDefault(names[i]);
      }
    }

    /** `handleMouseOver`; `target` is the closest `path[name]` ancestor of the
        event target, if any. */
    method MouseOver(target: Option<nat>, g: HoverGeometry)
      requires Valid()
      requires target.Some? ==> target.value < |surface.names|
      modifies this, surface
      ensures Valid()
      ensures target.None? ==>
                surface.styles == old(surface.styles) && surface.hovered == old(surface.hovered)
                && tooltip == old(tooltip)
      ensures target.Some? ==>
                && surface.hovered == target
                && surface.styles == surface.EnterStyles(old(surface.styles), old(surface.hovered), target.value)
                && surface.Highlighted() == {target.value}
                && tooltip == Show(TextOf(UniformCatalog, surface.names[target.value]),
                                   PlaceAbove(ScreenAnchor(g), g.container, g.tipWidth, g.tipHeight))
    {
      if target.None? {
        return;
      }
      var p := target.value;
      surface.Enter(p);
      var name := surface.names[p];
      tooltip := Show(TextOf(UniformCatalog, name), PlaceAbove(ScreenAnchor(g), g.container, g.tipWidth, g.tipHeight));
    }

    /** `handleMouseOut`. */
    method MouseOut(target: Option<nat>)
      requires Valid()
      requires target.Some? ==> target.value < |surface.names|
      modifies this, surface
      ensures Valid()
      ensures target.None? ==>
                surface.styles == old(surface.styles) && surface.hovered == old(surface.hovered)
                && tooltip == old(tooltip)
      ensures target.Some? ==>
                && surface.styles == old(surface.styles)[target.value := RestStyle(UniformCatalog, surface.names[target.value])]
                && surface.hovered == (if old(surface.hovered) == target then None else old(surface.hovered))
                && surface.Highlighted() == old(surface.Highlighted()) - {target.value}
                && tooltip == Hide(old(tooltip))
    {
      if target.None? {
        return;
      }
      surface.Leave(target.value);
      tooltip := Hide(tooltip);
    }

    /** `handleClick`: the message the alert shows, if the click was on a
        region. */
    method Click(target: Option<nat>) returns (message: Option<string>)
      requires Valid()
      requires target.Some? ==> target.value < |surface.names|
      ensures target.None? ==> message.None?
      ensures target.Some? ==>
                message == Some("You clicked on: " + TextOf(UniformCatalog, surface.names[target.value]))
    {
      if target.None? {
        return None;
      }
      var name := surface.names[target.value];
      ClickTextMatchesTooltip(UniformCatalog, name);
      message := Some(ClickMessage(UniformCatalog, name));
    }
  }
}
