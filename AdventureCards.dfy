/** Layout of the adventure cards around a region (lines 285-436 of
    src/components/YourAdventures.js): a region's n cards are split into a
    top band of ⌈0.3n⌉, a bottom band of the same size, a left band of
    ⌊0.2n⌋ and a right band of whatever remains; a pin's creation index
    picks its band and its place in it, and fixed offsets from the pin put
    the card and the end of its arrow. */
module AdventureCards {
  import opened Geometry

  datatype Side = Top | Right | Bottom | Left

  /** `Math.ceil(n * 0.3)`, in exact arithmetic. */
  function CardsTop(n: nat): nat {
    (3 * n + 9) / 10
  }

  /** `Math.ceil(n * 0.3)` again, for the bottom band. */
  function CardsBottom(n: nat): nat {
    CardsTop(n)
  }

  /** `Math.floor(n * 0.2)`, in exact arithmetic. */
  function CardsLeft(n: nat): nat {
    (2 * n) / 10
  }

  /** The remainder; negative for a single card. */
  function CardsRight(n: nat): int {
    n - CardsTop(n) - CardsBottom(n) - CardsLeft(n)
  }

  function BandSize(side: Side, n: nat): int {
    match side
    case Top => CardsTop(n)
    case Right => CardsRight(n)
    case Bottom => CardsBottom(n)
    case Left => CardsLeft(n)
  }

  /** Bands are filled in the order top, right, bottom, left. */
  function SideRank(side: Side): nat {
    match side
    case Top => 0
    case Right => 1
    case Bottom => 2
    case Left => 3
  }

  /** The first index of a band. */
  function BandStart(side: Side, n: nat): int {
    match side
    case Top => 0
    case Right => CardsTop(n)
    case Bottom => CardsTop(n) + CardsRight(n)
    case Left => CardsTop(n) + CardsRight(n) + CardsBottom(n)
  }

  /** The top band is the ceiling of 3n/10 and the left band the floor of
      2n/10, and the four bands add up to n. */
  lemma BandSizes(n: nat)
    ensures 10 * CardsTop(n) >= 3 * n && 10 * (CardsTop(n) - 1) < 3 * n
    ensures 10 * CardsLeft(n) <= 2 * n < 10 * (CardsLeft(n) + 1)
    ensures CardsTop(n) + CardsRight(n) + CardsBottom(n) + CardsLeft(n) == n
  {
  }

  /** The right band is empty or larger for every count except one, where
      it is -1 (one top card and one bottom card are reserved for a single
      pin). */
  lemma {:induction false} RightBandSign(n: nat)
    ensures CardsRight(n) >= -1
    ensures CardsRight(n) < 0 <==> n == 1
  {
    var q, r := n / 10, n % 10;
    assert n == 10 * q + r;
    assert CardsTop(n) == 3 * q + (3 * r + 9) / 10 by {
      assert 3 * n + 9 == 10 * (3 * q) + (3 * r + 9);
    }
    assert CardsLeft(n) == 2 * q + (2 * r) / 10 by {
      assert 2 * n == 10 * (2 * q) + 2 * r;
    }
    assert CardsRight(n) == 2 * q + r - 2 * ((3 * r + 9) / 10) - (2 * r) / 10;
  }

  /** The if-chain of the render: the card's side and its position in that
      side's band. */
  function Slot(index: int, n: nat): (Side, int) {
    var top, right, bottom := CardsTop(n), CardsRight(n), CardsBottom(n);
    if index < top then (Top, index)
    else if index < top + right then (Right, index - top)
    else if index < top + right + bottom then (Bottom, index - top - right)
    else (Left, index - top - right - bottom)
  }

  /** Every index of a region's cards lands inside its band, and the index
      is the band's start plus the position. */
  lemma SlotInBand(index: int, n: nat)
    requires 0 <= index < n
    ensures 0 <= Slot(index, n).1 < BandSize(Slot(index, n).0, n)
    ensures index == BandStart(Slot(index, n).0, n) + Slot(index, n).1
  {
    BandSizes(n);
  }

  /** Two different cards of a region never share a band position. */
  lemma SlotInjective(i: int, j: int, n: nat)
    requires 0 <= i < n && 0 <= j < n && i != j
    ensures Slot(i, n) != Slot(j, n)
  {
    SlotInBand(i, n);
    SlotInBand(j, n);
  }

  /** Bands are contiguous ranges taken in the order top, right, bottom,
      left: a later index never goes to an earlier band. */
  lemma SlotOrdered(i: int, j: int, n: nat)
    requires i <= j
    ensures SideRank(Slot(i, n).0) <= SideRank(Slot(j, n).0)
  {
  }

  /** Spacing between consecutive cards of the left and right bands. */
  const CardSpacing: int := 120

  /** Offset of a card from its pin, by side and position in the band. */
  function CardOffset(side: Side, k: int): Point {
    match side
    case Right => Point(50.0, (k * CardSpacing - 40) as real)
    case Left => Point(-270.0, (k * CardSpacing - 40) as real)
    case Bottom => Point((k * 270 - 125) as real, 50.0)
    case Top => Point((k * 270 - 125) as real, -110.0)
  }

  /** Where the arrow meets the card, from the card's top-left corner: the
      card's left edge for the right band, its right edge for the left band,
      its top centre below and its bottom centre above. */
  function ArrowEndOffset(side: Side): Point {
    match side
    case Right => Point(0.0, 40.0)
    case Left => Point(250.0, 40.0)
    case Bottom => Point(125.0, 0.0)
    case Top => Point(125.0, 90.0)
  }

  /** A rendered card: its band, its position there, its top-left corner in
      the container, and its arrow from the pin to the card. */
  datatype CardView = CardView(side: Side, position: int, left: real, top: real,
                               arrowStart: Point, arrowEnd: Point)

  /** The card of a pin at `at` (SVG coordinates) with creation index
      `index` among the region's `n` pins. */
  function CardFor(at: Point, index: int, n: nat, ctm: Matrix, container: Rect): (c: CardView)
    ensures (c.side, c.position) == Slot(index, n)
    ensures Point(c.left, c.top) ==
              Relative(Apply(ctm, Point(at.x + CardOffset(c.side, c.position).x,
                                        at.y + CardOffset(c.side, c.position).y)), container)
    ensures c.arrowStart == Relative(Apply(ctm, at), container)
    ensures c.arrowEnd == Point(c.left + ArrowEndOffset(c.side).x, c.top + ArrowEndOffset(c.side).y)
  {
    var (side, k) := Slot(index, n);
    var offset := CardOffset(side, k);
    var corner := Relative(Apply(ctm, Point(at.x + offset.x, at.y + offset.y)), container);
    var end := ArrowEndOffset(side);
    CardView(side, k, corner.x, corner.y, Relative(Apply(ctm, at), container),
             Point(corner.x + end.x, corner.y + end.y))
  }

  /** In SVG units, cards of one pin that share the left or right band are
      a whole spacing apart vertically, and those sharing the top or bottom
      band 270 apart horizontally, more than a card's 90 height or 250 width. */
  lemma BandNeighboursApart(side: Side, k1: int, k2: int)
    requires k1 < k2
    ensures side == Right || side == Left ==> CardOffset(side, k2).y - CardOffset(side, k1).y >= 120.0
    ensures side == Top || side == Bottom ==> CardOffset(side, k2).x - CardOffset(side, k1).x >= 270.0
  {
  }
}
