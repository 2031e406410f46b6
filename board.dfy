/**
 * The board geometry of the 2D player: where a card of a given controller,
 * location and sequence sits, in grid units (`coordinate`) and in pixels
 * (`layout`), and which destinations are piles (`isToPile`).
 */
module Board {
  import opened Protocol

  datatype Point = Point(x: int, y: int)

  /** Height of a card entity plus the gap between entities, in pixels. */
  const ENTITY_HEIGHT: int := 72
  const GAP: int := 6

  /** `_coordinate`: the grid cell of a card of player 0. */
  function BaseCoordinate(location: Location, sequence: int): Point
  {
    if location == SZONE then (if sequence == 5 then Point(3, -1) else Point(2 - sequence, -2))
    else if location == MZONE then (if sequence > 4 then Point(11 - sequence * 2, 0) else Point(2 - sequence, -1))
    else if location == DECK then Point(-3, -2)
    else if location == GRAVE then Point(-3, -1)
    else if location == EXTRA then Point(3, -2)
    else if location == REMOVED then Point(-4, -1)
    else if location == HAND then Point(3 - sequence, -4)
    else Point(0, 0)
  }

  /** `coordinate`: player 0 as is, every other controller point-mirrored through the centre. */
  function Coordinate(controller: int, location: Location, sequence: int): (p: Point)
    ensures controller == 0 ==> p == BaseCoordinate(location, sequence)
    ensures controller != 0 ==> p.x == -BaseCoordinate(location, sequence).x && p.y == -BaseCoordinate(location, sequence).y
  {
    var s := if controller == 0 then 1 else -1;
    var c := BaseCoordinate(location, sequence);
    Point(c.x * s, c.y * s)
  }

  function Layout(controller: int, location: Location, sequence: int): (p: Point)
    ensures p.x == Coordinate(controller, location, sequence).x * 78
    ensures p.y == Coordinate(controller, location, sequence).y * 78
  {
    var c := Coordinate(controller, location, sequence);
    var w := ENTITY_HEIGHT + GAP;
    Point(c.x * w, c.y * w)
  }

  /** The value `isToPile` returns: `false` from the OVERLAY test, or the masked location number. */
  datatype PileTest = OverlayFalse | Masked(bits: bv8)

  const PILES: Location := DECK | GRAVE | EXTRA | REMOVED

  function IsToPile(location: Location): PileTest
  {
    if location & OVERLAY != 0 then OverlayFalse else Masked(location & PILES)
  }

  predicate Truthy(t: PileTest)
  {
    t.Masked? && t.bits != 0
  }

  /** Opponent's cards are the mirror image of one's own through the centre of the board. */
  lemma Mirror(location: Location, sequence: int)
    ensures Coordinate(1, location, sequence) == Point(-Coordinate(0, location, sequence).x, -Coordinate(0, location, sequence).y)
    ensures Layout(1, location, sequence) == Point(-Layout(0, location, sequence).x, -Layout(0, location, sequence).y)
  {
  }

  /** The two extra monster zones are shared: player 0's zone 5 is player 1's zone 6 and vice versa. */
  lemma ExtraMonsterZonesShared()
    ensures Layout(0, MZONE, 5) == Layout(1, MZONE, 6)
    ensures Layout(0, MZONE, 6) == Layout(1, MZONE, 5)
  {
  }

  /** Piles are drawn as one stack: deck, grave, extra and banished cards ignore their sequence. */
  lemma PilesIgnoreSequence(controller: int, location: Location, s: int, t: int)
    requires location == DECK || location == GRAVE || location == EXTRA || location == REMOVED
    ensures Layout(controller, location, s) == Layout(controller, location, t)
  {
  }

  /** The zones and piles of one player, with the sequence a pile is drawn at fixed to 0. */
  predicate FieldSlot(location: Location, sequence: int)
  {
    (location == MZONE && 0 <= sequence <= 6)
    || (location == SZONE && 0 <= sequence <= 5)
    || ((location == DECK || location == GRAVE || location == EXTRA || location == REMOVED) && sequence == 0)
  }

  /** No two field slots of one player are drawn at the same place, and neither is the hand. */
  lemma SlotsDistinct(controller: int, l1: Location, s1: int, l2: Location, s2: int)
    requires FieldSlot(l1, s1) && FieldSlot(l2, s2)
    requires l1 != l2 || s1 != s2
    ensures Coordinate(controller, l1, s1) != Coordinate(controller, l2, s2)
    ensures forall h :: Coordinate(controller, l1, s1) != Coordinate(controller, HAND, h)
  {
  }

  /** `isToPile` is truthy exactly for a pile location without the OVERLAY bit. */
  lemma PileTestMeaning(location: Location)
    ensures Truthy(IsToPile(location)) <==>
      location & OVERLAY == 0 && (location & DECK != 0 || location & GRAVE != 0 || location & EXTRA != 0 || location & REMOVED != 0)
    ensures location & OVERLAY != 0 ==> !Truthy(IsToPile(location))
  {
  }
}
