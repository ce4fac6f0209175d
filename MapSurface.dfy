/** The hover state shared by the three map components: every `path[name]`
    of the SVG carries a fill and a filter, and a single "currently hovered
    path" reference says which one is highlighted. Paths are identified by
    their position in the SVG's list of named paths, that is by element,
    not by name. */
module MapSurface {
  import opened Common
  import opened Catalog

  /** The two style properties the handlers write. */
  datatype Style = Style(fill: string, filter: string)

  const Brightness: string := "brightness(1.2)"

  /** The style of the path under the pointer. */
  const HighlightStyle: Style := Style(HighlightFill, Brightness)

  /** The style a handler restores: the catalog fill and no filter. */
  function RestStyle(cat: Catalog, name: string): (s: Style)
    ensures s.fill == FillOf(cat, name) && s.filter != Brightness
  {
    Style(FillOf(cat, name), "none")
  }

  /** The set-up loop over the named paths: each path gets its catalog fill;
      its filter is not yet set. */
  method StylePaths(cat: Catalog, names: seq<string>) returns (styles: seq<Style>)
    ensures |styles| == |names|
    ensures forall i :: 0 <= i < |names| ==>
              styles[i].fill == FillOf(cat, names[i]) && styles[i].filter == ""
  {
    styles := [];
    var i := 0;
    while i < |names|
      invariant 0 <= i <= |names|
      invariant |styles| == i
      invariant forall k :: 0 <= k < i ==> styles[k].fill == FillOf(cat, names[k]) && styles[k].filter == ""
    {
      styles := styles + [Style(FillOf(cat, names[i]), "")];
      i := i + 1;
    }
  }

  class HoverSurface {
    const cat: Catalog
    const names: seq<string>
    var styles: seq<Style>
    var hovered: Option<nat>

    /** The hovered path, and only it, is highlighted; every other path
        shows its catalog fill. */
    ghost predicate Valid()
      reads this
    {
      && |styles| == |names|
      && (hovered.Some? ==> hovered.value < |names|)
      && forall i :: 0 <= i < |names| ==>
           if hovered == Some(i) then styles[i] == HighlightStyle
           else styles[i].fill == FillOf(cat, names[i]) && styles[i].filter != Brightness
    }

    /** The paths that currently carry the highlight filter. */
    function Highlighted(): set<int>
      reads this
    {
      set i | 0 <= i < |styles| && styles[i].filter == Brightness
    }

    /** What a valid surface highlights is exactly its hovered path. */
    lemma HighlightedIsHovered()
      requires Valid()
      ensures Highlighted() == if hovered.Some? then {hovered.value} else {}
      ensures |Highlighted()| <= 1
    {
      if hovered.Some? {
        assert hovered.value in Highlighted();
        assert Highlighted() == {hovered.value};
      } else {
        assert Highlighted() == {};
      }
    }

    /** Styles after a mouseover on `p`: the previously hovered path, if it
        is another one, is restored; then `p` is highlighted. */
    function EnterStyles(st: seq<Style>, h: Option<nat>, p: nat): (r: seq<Style>)
      requires |st| == |names| && p < |names|
      ensures |r| == |st|
    {
      var reset := if h.Some? && h.value != p && h.value < |st|
                   then st[h.value := RestStyle(cat, names[h.value])] else st;
      reset[p := HighlightStyle]
    }

    constructor (cat: Catalog, names: seq<string>)
      ensures this.cat == cat && this.names == names
      ensures Valid() && hovered == None && Highlighted() == {}
      ensures forall i :: 0 <= i < |names| ==> styles[i].fill == FillOf(cat, names[i])
    {
      this.cat := cat;
      this.names := names;
      var st := StylePaths(cat, names);
      styles := st;
      hovered := None;
      new;
      HighlightedIsHovered();
    }

    /** The set-up effect running again: the SVG is inserted anew, every
        path is back at its catalog fill with no filter, and no path is
        hovered. */
    method Reload()
      modifies this
      ensures Valid() && hovered == None && Highlighted() == {}
      ensures |styles| == |names|
      ensures forall i :: 0 <= i < |names| ==> styles[i] == Style(FillOf(cat, names[i]), "")
    {
      var st := StylePaths(cat, names);
      styles := st;
      hovered := None;
      HighlightedIsHovered();
    }

    /** Pointer enters path `p`. */
    method Enter(p: nat)
      requires Valid() && p < |names|
      modifies this
      ensures Valid()
      ensures hovered == Some(p)
      ensures styles == EnterStyles(old(styles), old(hovered), p)
      ensures Highlighted() == {p}
    {
      if hovered.Some? && hovered.value != p {
        var q := hovered.value;
        styles := styles[q := RestStyle(cat, names[q])];
      }
      hovered := Some(p);
      styles := styles[p := HighlightStyle];
      HighlightedIsHovered();
    }

    /** Pointer leaves path `p`: `p` is restored, and the hovered reference is
        cleared only if it was `p`. */
    method Leave(p: nat)
      requires Valid() && p < |names|
      modifies this
      ensures Valid()
      ensures styles == old(styles)[p := RestStyle(cat, names[p])]
      ensures hovered == if old(hovered) == Some(p) then None else old(hovered)
      ensures Highlighted() == old(Highlighted()) - {p}
    {
      HighlightedIsHovered();
      styles := styles[p := RestStyle(cat, names[p])];
      if hovered == Some(p) {
        hovered := None;
      }
      HighlightedIsHovered();
    }
  }
}
