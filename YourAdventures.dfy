/** The adventure map (src/components/YourAdventures.js): the shared hover
    surface with a flipping tooltip, a click that opens the pin dialog at
    the clicked point, a two-step dialog that appends a pin, and for the
    hovered region a card per pin laid out in four bands. */
module YourAdventures {
  import opened Common
  import opened Seqs
  import opened Catalog
  import opened Geometry
  import opened Tooltip
  import opened MapSurface
  import opened AdventureCards

  datatype PinType = Visited | WantToVisit

  /** A pin; `index` is its creation order within its region. */
  datatype Pin = Pin(id: int, region: Option<string>, pinType: Option<PinType>,
                     text: string, name: string, x: real, y: real, index: int)

  /** `pins.filter(p => p.region === r)`. */
  function RegionPins(pins: seq<Pin>, r: Option<string>): seq<Pin> {
    Filter(pins, InRegion(r))
  }

  function InRegion(r: Option<string>): Pin -> bool {
    (p: Pin) => p.region == r
  }

  /** Each pin's index counts the pins of its region created before it. */
  ghost predicate IndexedByRegion(pins: seq<Pin>) {
    forall i :: 0 <= i < |pins| ==> pins[i].index == |RegionPins(pins[..i], pins[i].region)|
  }

  /** Appending a pin whose index is its region's current count keeps the
      pins indexed. */
  lemma IndexedAppend(pins: seq<Pin>, p: Pin)
    requires IndexedByRegion(pins)
    requires p.index == |RegionPins(pins, p.region)|
    ensures IndexedByRegion(pins + [p])
  {
    var all := pins + [p];
    forall i | 0 <= i < |all|
      ensures all[i].index == |RegionPins(all[..i], all[i].region)|
    {
      if i < |pins| {
        assert all[..i] == pins[..i];
      } else {
        assert all[..i] == pins;
      }
    }
  }

  /** In an indexed list, the j-th pin of every region has index j: the
      indexes of a region are exactly 0, 1, ..., count - 1, in order. */
  lemma {:induction false} IndexesAreRanks(pins: seq<Pin>, r: Option<string>)
    requires IndexedByRegion(pins)
    ensures forall j :: 0 <= j < |RegionPins(pins, r)| ==> RegionPins(pins, r)[j].index == j
  {
    if pins != [] {
      var init, last := pins[..|pins| - 1], pins[|pins| - 1];
      assert pins == init + [last];
      IndexedPrefix(pins, |pins| - 1);
      IndexesAreRanks(init, r);
      LastIndexed(pins);
      FilterSnoc(init, last, InRegion(r));
      RanksStep(RegionPins(init, r), last, r);
    }
  }

  /** The last pin of an indexed list counts the earlier pins of its region. */
  lemma LastIndexed(pins: seq<Pin>)
    requires IndexedByRegion(pins) && pins != []
    ensures pins[|pins| - 1].index == |RegionPins(pins[..|pins| - 1], pins[|pins| - 1].region)|
  {
  }

  /** Ranks survive appending a pin whose index is the count before it. */
  lemma RanksStep(before: seq<Pin>, last: Pin, r: Option<string>)
    requires forall j :: 0 <= j < |before| ==> before[j].index == j
    requires last.region == r ==> last.index == |before|
    ensures var all := before + (if last.region == r then [last] else []);
            forall j :: 0 <= j < |all| ==> all[j].index == j
  {
  }

  /** Every prefix of an indexed list is indexed. */
  lemma IndexedPrefix(pins: seq<Pin>, k: nat)
    requires IndexedByRegion(pins) && k <= |pins|
    ensures IndexedByRegion(pins[..k])
  {
    var pre := pins[..k];
    forall i | 0 <= i < |pre|
      ensures pre[i].index == |RegionPins(pre[..i], pre[i].region)|
    {
      assert pre[..i] == pins[..i];
    }
  }

  /** The attribute value `path[name="${pin.region}"]` looks for; a pin
      without a region looks for the name "null". */
  function PathQuery(region: Option<string>): string {
    if region.Some? then region.value else "null"
  }

  /** What rendering needs from the mounted map: the names of its paths,
      the screen matrix and the container's rectangle. */
  datatype View = View(names: seq<string>, ctm: Matrix, container: Rect)

  /** The card of one pin, when it is rendered: only with a mounted map,
      only for the hovered region, and only if a path of that name exists. */
  function CardOf(pin: Pin, pins: seq<Pin>, hovered: Option<string>, view: Option<View>): Option<CardView> {
    if view.None? || hovered != pin.region || PathQuery(pin.region) !in view.value.names then None
    else Some(CardFor(Point(pin.x, pin.y), pin.index, |RegionPins(pins, pin.region)|,
                      view.value.ctm, view.value.container))
  }

  /** The cards rendered for the pins of `rest`, in order, with band sizes
      counted over all of `pins`. */
  function Cards(rest: seq<Pin>, pins: seq<Pin>, hovered: Option<string>, view: Option<View>): seq<CardView> {
    if rest == [] then []
    else
      var c := CardOf(rest[0], pins, hovered, view);
      (if c.Some? then [c.value] else []) + Cards(rest[1..], pins, hovered, view)
  }

  /** A pin's marker: its position in the container and its icon. */
  datatype Marker = Marker(at: Point, icon: string)

  function MarkerOf(pin: Pin, ctm: Matrix, container: Rect): (m: Marker)
    ensures m.icon == "/red-pin.svg" <==> pin.pinType == Some(Visited)
  {
    Marker(Relative(Apply(ctm, Point(pin.x, pin.y)), container),
           if pin.pinType == Some(Visited) then "/red-pin.svg" else "/green-pin.svg")
  }

  /** Every pin gets a marker once the map is mounted, none before. */
  function Markers(pins: seq<Pin>, view: Option<View>): (ms: seq<Marker>)
    ensures view.None? ==> ms == []
    ensures view.Some? ==> |ms| == |pins|
    ensures view.Some? ==> forall i :: 0 <= i < |pins| ==> ms[i] == MarkerOf(pins[i], view.value.ctm, view.value.container)
  {
    if view.None? then [] else seq(|pins|, i requires 0 <= i < |pins| => MarkerOf(pins[i], view.value.ctm, view.value.container))
  }

  /** Without a mounted map, or with no path named after the hovered
      region, no card is shown; otherwise the cards are exactly the
      hovered region's pins, in order. */
  lemma CardsOfRegion(rest: seq<Pin>, pins: seq<Pin>, hovered: Option<string>, view: Option<View>)
    ensures view.None? || PathQuery(hovered) !in view.value.names ==> Cards(rest, pins, hovered, view) == []
    ensures view.Some? && PathQuery(hovered) in view.value.names ==>
              var ps := RegionPins(rest, hovered);
              && |Cards(rest, pins, hovered, view)| == |ps|
              && forall j :: 0 <= j < |ps| ==>
                   Cards(rest, pins, hovered, view)[j]
                   == CardFor(Point(ps[j].x, ps[j].y), ps[j].index, |RegionPins(pins, hovered)|,
                              view.value.ctm, view.value.container)
  {
    if view.None? || PathQuery(hovered) !in view.value.names {
      NoCards(rest, pins, hovered, view);
    } else {
      RegionCards(rest, pins, hovered, view.value);
    }
  }

  lemma {:induction false} NoCards(rest: seq<Pin>, pins: seq<Pin>, hovered: Option<string>, view: Option<View>)
    requires view.None? || PathQuery(hovered) !in view.value.names
    ensures Cards(rest, pins, hovered, view) == []
  {
    if rest != [] {
      NoCards(rest[1..], pins, hovered, view);
      assert CardOf(rest[0], pins, hovered, view).None?;
    }
  }

  lemma {:induction false} RegionCards(rest: seq<Pin>, pins: seq<Pin>, hovered: Option<string>, v: View)
    requires PathQuery(hovered) in v.names
    ensures var ps := RegionPins(rest, hovered);
            && |Cards(rest, pins, hovered, Some(v))| == |ps|
            && forall j :: 0 <= j < |ps| ==>
                 Cards(rest, pins, hovered, Some(v))[j]
                 == CardFor(Point(ps[j].x, ps[j].y), ps[j].index, |RegionPins(pins, hovered)|, v.ctm, v.container)
  {
    if rest != [] {
      var p, tail := rest[0], rest[1..];
      RegionCards(tail, pins, hovered, v);
      var c := CardOf(p, pins, hovered, Some(v));
      var cards, later := Cards(rest, pins, hovered, Some(v)), Cards(tail, pins, hovered, Some(v));
      assert cards == (if c.Some? then [c.value] else []) + later;
      assert RegionPins(rest, hovered) == (if p.region == hovered then [p] else []) + RegionPins(tail, hovered);
      if p.region == hovered {
        var ps, laterPins := RegionPins(rest, hovered), RegionPins(tail, hovered);
        assert cards == [c.value] + later;
        forall j | 0 <= j < |ps|
          ensures cards[j] == CardFor(Point(ps[j].x, ps[j].y), ps[j].index, |RegionPins(pins, hovered)|,
                                      v.ctm, v.container)
        {
          if j > 0 {
            assert ps[j] == laterPins[j - 1];
            assert cards[j] == later[j - 1];
          }
        }
      } else {
        assert c.None?;
      }
    }
  }

  /** The layout the render produces for a hovered region: one card per
      pin of the region, the j-th in slot j of the band split, no two in
      the same slot, each inside its band, each arrow starting at its pin's
      marker. */
  lemma HoveredRegionLayout(pins: seq<Pin>, r: Option<string>, view: View)
    requires IndexedByRegion(pins)
    requires PathQuery(r) in view.names
    ensures var cards, ps := Cards(pins, pins, r, Some(view)), RegionPins(pins, r);
            && |cards| == |ps|
            && (forall j :: 0 <= j < |cards| ==> (cards[j].side, cards[j].position) == Slot(j, |ps|))
            && (forall j :: 0 <= j < |cards| ==> 0 <= cards[j].position < BandSize(cards[j].side, |ps|))
            && (forall i, j :: 0 <= i < j < |cards| ==> (cards[i].side, cards[i].position) != (cards[j].side, cards[j].position))
            && (forall j :: 0 <= j < |cards| ==> cards[j].arrowStart == MarkerOf(ps[j], view.ctm, view.container).at)
  {
    var cards, ps := Cards(pins, pins, r, Some(view)), RegionPins(pins, r);
    CardsOfRegion(pins, pins, r, Some(view));
    IndexesAreRanks(pins, r);
    forall j | 0 <= j < |cards|
      ensures 0 <= cards[j].position < BandSize(cards[j].side, |ps|)
    {
      SlotInBand(j, |ps|);
    }
    forall i, j | 0 <= i < j < |cards|
      ensures (cards[i].side, cards[i].position) != (cards[j].side, cards[j].position)
    {
      SlotInjective(i, j, |ps|);
    }
  }

  /** For the hovered region, the j-th card's top-left corner is the j-th
      pin moved by the offset of the card's slot, mapped to the screen and
      made relative to the container. */
  lemma HoveredCardCorners(pins: seq<Pin>, r: Option<string>, view: View)
    requires PathQuery(r) in view.names
    ensures var cards, ps := Cards(pins, pins, r, Some(view)), RegionPins(pins, r);
            && |cards| == |ps|
            && forall j :: 0 <= j < |cards| ==>
                 Point(cards[j].left, cards[j].top) ==
                 Relative(Apply(view.ctm, Point(ps[j].x + CardOffset(cards[j].side, cards[j].position).x,
                                                ps[j].y + CardOffset(cards[j].side, cards[j].position).y)),
                          view.container)
  {
    var cards, ps := Cards(pins, pins, r, Some(view)), RegionPins(pins, r);
    CardsOfRegion(pins, pins, r, Some(view));
    forall j | 0 <= j < |cards|
      ensures Point(cards[j].left, cards[j].top) ==
              Relative(Apply(view.ctm, Point(ps[j].x + CardOffset(cards[j].side, cards[j].position).x,
                                             ps[j].y + CardOffset(cards[j].side, cards[j].position).y)),
                       view.container)
    {
      var c := CardFor(Point(ps[j].x, ps[j].y), ps[j].index, |RegionPins(pins, r)|, view.ctm, view.container);
      assert cards[j] == c;
    }
  }

  /** The pin dialog's state: which step is open, the clicked region and
      point, the chosen pin type and the two text fields. */
  datatype PinForm = PinForm(showPinModal: bool, showTextModal: bool,
                             selectedRegion: Option<string>, selectedPinType: Option<PinType>,
                             clickPosition: Point, clickBox: Option<BBox>,
                             text: string, name: string)

  const InitialForm: PinForm := PinForm(false, false, None, None, Point(0.0, 0.0), None, "", "")

  /** The pin `handleTextSubmit` creates. */
  function NewPin(now: int, form: PinForm, pins: seq<Pin>): (p: Pin)
    ensures p.region == form.selectedRegion && p.pinType == form.selectedPinType
    ensures p.text == form.text && p.name == form.name
    ensures p.x == form.clickPosition.x && p.y == form.clickPosition.y
    ensures p.index == |RegionPins(pins, form.selectedRegion)|
  {
    Pin(now, form.selectedRegion, form.selectedPinType, form.text, form.name,
        form.clickPosition.x, form.clickPosition.y, |RegionPins(pins, form.selectedRegion)|)
  }

  class AdventuresMap {
    const surface: HoverSurface
    var tooltip: TooltipState
    var hoveredRegion: Option<string>
    var form: PinForm
    var pins: seq<Pin>

    ghost predicate Valid()
      reads this, surface
    {
      surface.Valid() && surface.cat == UniformCatalog && IndexedByRegion(pins)
    }

    constructor (names: seq<string>)
      ensures Valid() && fresh(surface)
      ensures surface.names == names && surface.hovered == None
      ensures forall i :: 0 <= i < |names| ==> surface.styles[i].fill == DefaultFill
      ensures tooltip == InitialTooltip && hoveredRegion == None
      ensures form == InitialForm && pins == []
    {
      surface := new HoverSurface(UniformCatalog, names);
      tooltip := InitialTooltip;
      hoveredRegion := None;
      form := InitialForm;
      pins := [];
      new;
      forall i | 0 <= i < |names|
        ensures surface.styles[i].fill == DefaultFill
      {
        UniformFillIsDefault(names[i]);
      }
    }

    /** `handleMouseOver`: highlight, remember the hovered region for the
        cards, and place the tooltip above the region or, when it would be
        cut off, below it. */
    method MouseOver(target: Option<nat>, g: HoverGeometry)
      requires Valid()
      requires target.Some? ==> target.value < |surface.names|
      modifies this, surface
      ensures Valid()
      ensures form == old(form) && pins == old(pins)
      ensures target.None? ==>
                surface.styles == old(surface.styles) && surface.hovered == old(surface.hovered)
                && tooltip == old(tooltip) && hoveredRegion == old(hoveredRegion)
      ensures target.Some? ==>
                && surface.hovered == target
                && surface.styles == surface.EnterStyles(old(surface.styles), old(surface.hovered), target.value)
                && surface.Highlighted() == {target.value}
                && hoveredRegion == Some(surface.names[target.value])
                && tooltip == Show(TextOf(UniformCatalog, surface.names[target.value]),
                                   PlaceFlipping(ScreenAnchor(g), g.container, g.tipWidth, g.tipHeight, g.bbox.height))
    {
      if target.None? {
        return;
      }
      var p := target.value;
      surface.Enter(p);
      var name := surface.names[p];
      hoveredRegion := Some(name);
      tooltip := Show(TextOf(UniformCatalog, name),
                      PlaceFlipping(ScreenAnchor(g), g.container, g.tipWidth, g.tipHeight, g.bbox.height));
    }

    /** `handleMouseOut`: restore the path, forget the hovered region and
        hide the tooltip. */
    method MouseOut(target: Option<nat>)
      requires Valid()
      requires target.Some? ==> target.value < |surface.names|
      modifies this, surface
      ensures Valid()
      ensures form == old(form) && pins == old(pins)
      ensures target.None? ==>
                surface.styles == old(surface.styles) && surface.hovered == old(surface.hovered)
                && tooltip == old(tooltip) && hoveredRegion == old(hoveredRegion)
      ensures target.Some? ==>
                && surface.styles == old(surface.styles)[target.value := RestStyle(UniformCatalog, surface.names[target.value])]
                && surface.hovered == (if old(surface.hovered) == target then None else old(surface.hovered))
                && surface.Highlighted() == old(surface.Highlighted()) - {target.value}
                && hoveredRegion == None
                && tooltip == Hide(old(tooltip))
    {
      if target.None? {
        return;
      }
      surface.Leave(target.value);
      hoveredRegion := None;
      tooltip := Hide(tooltip);
    }

    /** `handleClick`: the client point is mapped back into SVG
        coordinates with the inverse of the screen matrix, and the pin
        dialog opens for the region. */
    method Click(target: Option<nat>, client: Point, ctm: Matrix, bbox: BBox)
      requires Valid()
      requires target.Some? ==> target.value < |surface.names| && Det(ctm) != 0.0
      modifies this
      ensures Valid()
      ensures tooltip == old(tooltip) && hoveredRegion == old(hoveredRegion) && pins == old(pins)
      ensures target.None? ==> form == old(form)
      ensures target.Some? ==>
                && form == old(form).(selectedRegion := Some(surface.names[target.value]),
                                      clickPosition := form.clickPosition,
                                      clickBox := Some(bbox), showPinModal := true)
                && Apply(ctm, form.clickPosition) == client
    {
      if target.None? {
        return;
      }
      var at := Apply(Inverse(ctm), client);
      ApplyUndoesInverse(ctm, client);
      form := form.(selectedRegion := Some(surface.names[target.value]),
                    clickPosition := at, clickBox := Some(bbox), showPinModal := true);
    }

    /** `handlePinSelection`: from the first step to the text step. */
    method SelectPinType(t: PinType)
      requires Valid()
      modifies this
      ensures Valid()
      ensures tooltip == old(tooltip) && hoveredRegion == old(hoveredRegion) && pins == old(pins)
      ensures form == old(form).(selectedPinType := Some(t), showPinModal := false, showTextModal := true)
    {
      form := form.(selectedPinType := Some(t), showPinModal := false, showTextModal := true);
    }

    /** The two inputs of the text step. */
    method EditText(s: string)
      requires Valid()
      modifies this
      ensures Valid()
      ensures tooltip == old(tooltip) && hoveredRegion == old(hoveredRegion) && pins == old(pins)
      ensures form == old(form).(text := s)
    {
      form := form.(text := s);
    }

    method EditName(s: string)
      requires Valid()
      modifies this
      ensures Valid()
      ensures tooltip == old(tooltip) && hoveredRegion == old(hoveredRegion) && pins == old(pins)
      ensures form == old(form).(name := s)
    {
      form := form.(name := s);
    }

    /** `handleTextSubmit`: a blank text does nothing; otherwise one pin is
        appended whose index is the number of pins its region already has,
        and the dialog is reset. The pins stay indexed by region. A new pin
        list runs the map's set-up again: every path is back at rest and
        nothing is highlighted. */
    method SubmitText(now: int)
      requires Valid()
      modifies this, surface
      ensures Valid()
      ensures tooltip == old(tooltip) && hoveredRegion == old(hoveredRegion)
      ensures IsBlank(old(form.text)) ==>
                && form == old(form) && pins == old(pins)
                && surface.styles == old(surface.styles) && surface.hovered == old(surface.hovered)
      ensures !IsBlank(old(form.text)) ==>
                && pins == old(pins) + [NewPin(now, old(form), old(pins))]
                && form == old(form).(showTextModal := false, selectedRegion := None,
                                      selectedPinType := None, text := "", name := "")
                && surface.hovered == None && surface.Highlighted() == {}
                && forall i :: 0 <= i < |surface.names| ==>
                     surface.styles[i] == Style(FillOf(UniformCatalog, surface.names[i]), "")
    {
      if IsBlank(form.text) {
        return;
      }
      var p := NewPin(now, form, pins);
      IndexedAppend(pins, p);
      pins := pins + [p];
      form := form.(showTextModal := false, selectedRegion := None,
                    selectedPinType := None, text := "", name := "");
      surface.Reload();
    }

    /** `handleModalClose`: both steps closed, the selection and the
        inputs cleared; the clicked point is kept. */
    method CloseModal()
      requires Valid()
      modifies this
      ensures Valid()
      ensures tooltip == old(tooltip) && hoveredRegion == old(hoveredRegion) && pins == old(pins)
      ensures form == old(form).(showPinModal := false, showTextModal := false, selectedRegion := None,
                                 selectedPinType := None, text := "", name := "")
    {
      form := form.(showPinModal := false, showTextModal := false, selectedRegion := None,
                    selectedPinType := None, text := "", name := "");
    }
  }
}
