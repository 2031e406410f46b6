/**
 * The board of the duel client as a value: every card object lives in an
 * arena and is named by its index there, and the per-player containers of
 * the duel mat hold card ids. A container slot is `None` where the array
 * element is `undefined` (the empty monster and spell/trap zones).
 *
 * `Put`, `Remove` and `Renumber` are the insertion policy, the removal
 * policy and `container.forEach(adjustSequence)`; a thrown error, including
 * the `TypeError` of touching an `undefined` card, is an `Err`.
 * `Valid` is the invariant the client keeps: every card in a container
 * records that container and its index there (the check `_validate`
 * makes), and every overlay material records its carrier and its index in
 * the carrier's list.
 */
module DuelBoard {
  import opened Wrappers
  import opened Protocol

  type CardId = nat
  type Slot = Option<CardId>

  /** `ClientCardState`, reduced to the fields the client maintains. */
  datatype CardState = CardState(code: int, controller: nat, location: Location, sequence: nat, position: Position)

  /**
   * A `ClientCard`: its current and previous state, the dirty flag, the
   * overlay materials it carries (`overlay.container`) and the card it is a
   * material of (`overlay.target`).
   */
  datatype Card = Card(current: CardState, previous: CardState, dirty: bool, overlay: seq<CardId>, overlayTarget: Option<CardId>)

  /** The state a fresh `ClientCard` starts with. */
  const BLANK: CardState := CardState(0, 0, 0, 0, FACEDOWN)

  /** A new card whose current state has been filled in field by field. */
  function NewCard(s: CardState): Card
  {
    Card(s, BLANK, false, [], None)
  }

  /** `card.set(code)`. */
  function SetCode(c: Card, code: int): Card
  {
    c.(current := c.current.(code := code), dirty := true)
  }

  datatype Key = Key(player: nat, location: Location)

  /**
   * `mat.containers`: for each of the two players, one array per location;
   * `containers[player][location]` is the entry at `Key(player, location)`.
   */
  type Mat = map<Key, seq<Slot>>

  datatype Board = Board(cards: seq<Card>, mat: Mat)

  const SIDE_LOCATIONS: set<Location> := {DECK, EXTRA, GRAVE, HAND, MZONE, SZONE, REMOVED}

  const FIVE_HOLES: seq<Slot> := [None, None, None, None, None]

  /** `new DuelMat()`: empty piles and five empty slots in each zone, for both players. */
  function EmptyMat(): Mat
  {
    map[
      Key(0, DECK) := [], Key(0, EXTRA) := [], Key(0, GRAVE) := [], Key(0, HAND) := [],
      Key(0, MZONE) := FIVE_HOLES, Key(0, SZONE) := FIVE_HOLES, Key(0, REMOVED) := [],
      Key(1, DECK) := [], Key(1, EXTRA) := [], Key(1, GRAVE) := [], Key(1, HAND) := [],
      Key(1, MZONE) := FIVE_HOLES, Key(1, SZONE) := FIVE_HOLES, Key(1, REMOVED) := []]
  }

  const EMPTY_BOARD: Board := Board([], EmptyMat())

  predicate IsZone(l: Location)
  {
    l == MZONE || l == SZONE
  }

  const NO_CONTAINER: string := "DuelState::at: no container."
  const NO_ENTITY: string := "DuelState::at: no entity."
  const INVALID_LOCATION: string := "DuelState::put: invalid location"
  const COLLIDE: string := "what"
  const TYPE_ERROR: string := "TypeError: undefined is not an object"

  /**
   * `locate`: the container of `controller` at `location` without its
   * OVERLAY bit. A controller without containers is a `TypeError`.
   */
  function Locate(mat: Mat, controller: nat, location: Location): (r: Result<Key>)
    ensures r.Ok? ==> r.value == Key(controller, location & 0x7F) && r.value in mat
    ensures r.Err? ==> Key(controller, location & 0x7F) !in mat || controller >= 2
  {
    if controller >= 2 then Err(TYPE_ERROR)
    else if Key(controller, location & 0x7F) !in mat then Err(NO_CONTAINER)
    else Ok(Key(controller, location & 0x7F))
  }

  /**
   * `at`: the card in the container slot, or, for an OVERLAY location, the
   * material at `subsequence` of that card; `None` is the `undefined` such a
   * lookup gives when the material (or the subsequence) is missing.
   */
  function At(b: Board, controller: nat, location: Location, sequence: nat, subsequence: Option<nat>): Result<Option<CardId>>
  {
    match Locate(b.mat, controller, location)
    case Err(e) => Err(e)
    case Ok(k) =>
      var pile := b.mat[k];
      if sequence >= |pile| || pile[sequence].None? then Err(NO_ENTITY)
      else
        var id := pile[sequence].value;
        if !HasBits(location, OVERLAY) then Ok(Some(id))
        else if subsequence.Some? && id < |b.cards| && subsequence.value < |b.cards[id].overlay| then
          Ok(Some(b.cards[id].overlay[subsequence.value]))
        else Ok(None)
  }

  // ------------------------------------------------------------ renumbering

  /** `adjustSequence(c, sequence)`. */
  function Adjusted(c: Card, sequence: nat): Card
  {
    c.(current := c.current.(sequence := sequence), dirty := c.dirty || c.current.sequence != sequence)
  }

  /** `adjustSequence` marks a card dirty exactly when its sequence changes, and changes nothing else. */
  lemma AdjustedMeaning(c: Card, sequence: nat)
    ensures Adjusted(c, sequence).current.sequence == sequence
    ensures Adjusted(c, sequence).dirty <==> c.dirty || c.current.sequence != sequence
    ensures sequence == c.current.sequence ==> Adjusted(c, sequence) == c
    ensures Adjusted(c, sequence).current.(sequence := c.current.sequence) == c.current
  {
  }

  /**
   * `pile.forEach(adjustSequence)` from index `from` on: every card is given
   * its index. An `undefined` element is a `TypeError`.
   */
  function Renumber(cards: seq<Card>, pile: seq<Slot>, from: nat): (r: Result<seq<Card>>)
    ensures r.Ok? ==> |r.value| == |cards|
    decreases |pile| - from
  {
    if from >= |pile| then Ok(cards)
    else match pile[from]
      case None => Err(TYPE_ERROR)
      case Some(x) =>
        if x >= |cards| then Err(TYPE_ERROR)
        else Renumber(cards[x := Adjusted(cards[x], from)], pile, from + 1)
  }

  /** Every slot holds a card of the arena. */
  predicate Filled(cards: seq<Card>, pile: seq<Slot>)
  {
    forall i | 0 <= i < |pile| :: pile[i].Some? && pile[i].value < |cards|
  }

  /** No card appears twice. */
  predicate Distinct(pile: seq<Slot>)
  {
    forall i, j | 0 <= i < j < |pile| && pile[i].Some? :: pile[i] != pile[j]
  }

  /** Two cards agree on everything except, possibly, the sequence and the dirty flag. */
  predicate Resequenced(c: Card, d: Card)
  {
    d.current == c.current.(sequence := d.current.sequence) && d.previous == c.previous
    && d.overlay == c.overlay && d.overlayTarget == c.overlayTarget
  }

  lemma {:induction false} RenumberOk(cards: seq<Card>, pile: seq<Slot>, from: nat)
    requires Filled(cards, pile)
    ensures Renumber(cards, pile, from).Ok?
    ensures |Renumber(cards, pile, from).value| == |cards|
    decreases |pile| - from
  {
    if from < |pile| {
      var x := pile[from].value;
      RenumberOk(cards[x := Adjusted(cards[x], from)], pile, from + 1);
    }
  }

  /**
   * `forEach(adjustSequence)` gives each card of the pile its index, marks it
   * dirty when that index differs from its sequence, and leaves every other
   * card as it was.
   */
  lemma {:induction false} RenumberEffect(cards: seq<Card>, pile: seq<Slot>, from: nat, r: seq<Card>)
    requires from <= |pile| && Renumber(cards, pile, from) == Ok(r)
    requires Distinct(pile)
    ensures |r| == |cards|
    ensures forall x | 0 <= x < |cards| :: Resequenced(cards[x], r[x])
    ensures forall x | 0 <= x < |cards| && Some(x) !in pile[from..] :: r[x] == cards[x]
    ensures forall i | from <= i < |pile| :: pile[i].Some? && pile[i].value < |cards| && r[pile[i].value] == Adjusted(cards[pile[i].value], i)
    decreases |pile| - from
  {
    if from < |pile| {
      var x := pile[from].value;
      var next := cards[x := Adjusted(cards[x], from)];
      RenumberEffect(next, pile, from + 1, r);
      assert pile[from..] == [pile[from]] + pile[from + 1..];
      forall i | from < i < |pile|
        ensures pile[i].value != x
      {
      }
    }
  }

  // -------------------------------------------------------------- insertion

  /** `container.findIndex(c => hasBits(c.position, POS.FACEUP))`, from index `from`; -1 when there is none. */
  function FirstFaceUp(cards: seq<Card>, pile: seq<Slot>, from: nat): (r: Result<int>)
    ensures r.Ok? ==> -1 <= r.value < |pile| && (r.value == -1 || from <= r.value)
    decreases |pile| - from
  {
    if from >= |pile| then Ok(-1)
    else match pile[from]
      case None => Err(TYPE_ERROR)
      case Some(x) =>
        if x >= |cards| then Err(TYPE_ERROR)
        else if HasBits(cards[x].current.position, FACEUP) then Ok(from)
        else FirstFaceUp(cards, pile, from + 1)
  }

  predicate FaceUpAt(cards: seq<Card>, pile: seq<Slot>, i: nat)
    requires i < |pile|
  {
    pile[i].Some? && pile[i].value < |cards| && HasBits(cards[pile[i].value].current.position, FACEUP)
  }

  /** `findIndex` finds the first face-up card, or reports that there is none. */
  lemma {:induction false} FirstFaceUpMeaning(cards: seq<Card>, pile: seq<Slot>, from: nat)
    requires Filled(cards, pile)
    ensures FirstFaceUp(cards, pile, from).Ok?
    ensures var f := FirstFaceUp(cards, pile, from).value;
      (f == -1 ==> forall i | from <= i < |pile| :: !FaceUpAt(cards, pile, i))
      && (f != -1 ==> FaceUpAt(cards, pile, f) && forall i | from <= i < f :: !FaceUpAt(cards, pile, i))
    decreases |pile| - from
  {
    if from < |pile| {
      FirstFaceUpMeaning(cards, pile, from + 1);
    }
  }

  /** `container[sequence] = card`: an index past the end grows the array, leaving holes. */
  function Store(pile: seq<Slot>, sequence: nat, id: CardId): (r: seq<Slot>)
    ensures |r| == if sequence < |pile| then |pile| else sequence + 1
    ensures r[sequence] == Some(id)
    ensures forall i | 0 <= i < |r| && i != sequence :: r[i] == if i < |pile| then pile[i] else None
  {
    if sequence < |pile| then pile[sequence := Some(id)]
    else pile + seq(sequence - |pile|, _ => None) + [Some(id)]
  }

  /**
   * Where `splice` puts a face-down card in the extra deck: before the first
   * face-up card, else at `length - 1`, which `splice` reads as 0 on an empty
   * pile.
   */
  function ExtraSlot(f: int, len: nat): (ins: nat)
    requires -1 <= f < len
    ensures ins <= len
  {
    if f != -1 then f else if len == 0 then 0 else len - 1
  }

  function Insert(pile: seq<Slot>, at: nat, id: CardId): (r: seq<Slot>)
    requires at <= |pile|
    ensures |r| == |pile| + 1
  {
    pile[..at] + [Some(id)] + pile[at..]
  }

  function WithSequence(c: Card, sequence: nat): Card
  {
    c.(current := c.current.(sequence := sequence))
  }

  /** The card with its controller and location set and marked dirty, as `put` does first. */
  function Placed(c: Card, controller: nat, location: Location): Card
  {
    c.(current := c.current.(controller := controller, location := location), dirty := true)
  }

  /**
   * `put(card, controller, location, sequence)`, with the collide check of
   * the debugging configuration: a card already in the target container is
   * refused.
   */
  function Put(b: Board, id: CardId, controller: nat, location: Location, sequence: nat): (r: Result<Board>)
    requires id < |b.cards|
    ensures r.Ok? ==> |r.value.cards| == |b.cards|
  {
    match Locate(b.mat, controller, location)
    case Err(e) => Err(e)
    case Ok(k) =>
      var pile := b.mat[k];
      if Some(id) in pile then Err(COLLIDE)
      else
        var placed := Placed(b.cards[id], controller, location);
        var cards := b.cards[id := placed];
        if location == HAND || location == GRAVE || location == REMOVED then
          Ok(Board(b.cards[id := WithSequence(placed, |pile|)], b.mat[k := pile + [Some(id)]]))
        else if location == MZONE || location == SZONE then
          Ok(Board(b.cards[id := WithSequence(placed, sequence)], b.mat[k := Store(pile, sequence, id)]))
        else if location == DECK then
          if sequence != 0 then
            Ok(Board(b.cards[id := WithSequence(placed, |pile|)], b.mat[k := pile + [Some(id)]]))
          else
            Reseat(b, k, cards, Insert(pile, 0, id))
        else if location == EXTRA then
          if HasBits(placed.current.position, FACEUP) then
            Ok(Board(b.cards[id := WithSequence(placed, |pile|)], b.mat[k := pile + [Some(id)]]))
          else
            match FirstFaceUp(cards, pile, 0)
            case Err(e) => Err(e)
            case Ok(f) => Reseat(b, k, cards, Insert(pile, ExtraSlot(f, |pile|), id))
        else Err(INVALID_LOCATION)
  }

  /** Replaces the pile at `k` and renumbers it. */
  function Reseat(b: Board, k: Key, cards: seq<Card>, pile: seq<Slot>): (r: Result<Board>)
    requires k in b.mat
    ensures r.Ok? ==> |r.value.cards| == |cards|
  {
    match Renumber(cards, pile, 0)
    case Err(e) => Err(e)
    case Ok(cs) => Ok(Board(cs, b.mat[k := pile]))
  }

  // ---------------------------------------------------------------- removal

  datatype Removal = Removal(board: Board, target: CardId)

  /**
   * `remove(controller, location, sequence)`: a zone keeps an empty slot, any
   * other container closes the gap and renumbers. The branch is chosen on the
   * location as given, the container on the location without its OVERLAY bit.
   */
  function Remove(b: Board, controller: nat, location: Location, sequence: nat): (r: Result<Removal>)
    ensures r.Ok? ==> |r.value.board.cards| == |b.cards| && r.value.target < |b.cards|
  {
    match Locate(b.mat, controller, location)
    case Err(e) => Err(e)
    case Ok(k) =>
      var pile := b.mat[k];
      if sequence >= |pile| || pile[sequence].None? || pile[sequence].value >= |b.cards| then Err(TYPE_ERROR)
      else
        var id := pile[sequence].value;
        var cards := b.cards[id := b.cards[id].(dirty := true)];
        if location == SZONE || location == MZONE then
          Ok(Removal(Board(cards, b.mat[k := pile[sequence := None]]), id))
        else
          match Reseat(b, k, cards, pile[..sequence] + pile[sequence + 1..])
          case Err(e) => Err(e)
          case Ok(nb) => Ok(Removal(nb, id))
  }

  // -------------------------------------------------------------- invariant

  predicate Seats(c: Card, k: Key, i: nat)
  {
    c.current.controller == k.player && c.current.location == k.location && c.current.sequence == i && c.overlayTarget.None?
  }

  /** Slot `i` of container `k` is empty only in a zone, and otherwise holds a card that records this place. */
  predicate SlotOk(b: Board, k: Key, i: nat)
    requires k in b.mat && i < |b.mat[k]|
  {
    match b.mat[k][i]
    case None => IsZone(k.location)
    case Some(x) => x < |b.cards| && Seats(b.cards[x], k, i)
  }

  ghost predicate PilesOk(b: Board)
  {
    forall k, i | k in b.mat && 0 <= i < |b.mat[k]| :: SlotOk(b, k, i)
  }

  /** Material `j` of card `c` records `c` as its carrier and `j` as its sequence. */
  predicate MaterialOk(b: Board, c: CardId, j: nat)
    requires c < |b.cards| && j < |b.cards[c].overlay|
  {
    var m := b.cards[c].overlay[j];
    m < |b.cards| && b.cards[m].overlayTarget == Some(c) && b.cards[m].current.sequence == j
  }

  predicate OverlaysOk(b: Board)
  {
    forall c, j | 0 <= c < |b.cards| && 0 <= j < |b.cards[c].overlay| :: MaterialOk(b, c, j)
  }

  /** Both players have exactly the seven containers of the duel mat. */
  predicate Shaped(mat: Mat)
  {
    mat.Keys == EmptyMat().Keys
  }

  ghost predicate Valid(b: Board)
  {
    Shaped(b.mat) && PilesOk(b) && OverlaysOk(b)
  }

  /** `_validate(controller, location, container)` passes: every card's sequence is its index. */
  predicate Validated(b: Board, pile: seq<Slot>)
  {
    forall i | 0 <= i < |pile| && pile[i].Some? :: pile[i].value < |b.cards| && b.cards[pile[i].value].current.sequence == i
  }

  /** A card that is in the container its state names, at the index its state names. */
  predicate Seated(b: Board, x: CardId)
  {
    x < |b.cards| &&
    var s := b.cards[x].current;
    var k := Key(s.controller, s.location);
    k in b.mat && s.sequence < |b.mat[k]| && b.mat[k][s.sequence] == Some(x)
  }

  /** The card may be put into container `k`: it is no material and sits in no other container. */
  predicate Free(b: Board, x: CardId, k: Key)
    requires x < |b.cards|
  {
    b.cards[x].overlayTarget.None? && (Seated(b, x) ==> Key(b.cards[x].current.controller, b.cards[x].current.location) == k)
  }

  // ------------------------------------------------- consequences of Valid

  /** The containers of a well-shaped mat are exactly the seven locations of the two players. */
  lemma ShapedKeys(mat: Mat, k: Key)
    requires Shaped(mat)
    ensures k in mat <==> k.player < 2 && k.location in SIDE_LOCATIONS
  {
    var e := EmptyMat();
    assert k.player < 2 && k.location in SIDE_LOCATIONS ==> k in e;
  }

  /** The seven locations carry no OVERLAY bit, so masking them changes nothing. */
  lemma PlainLocation(location: Location)
    requires location in SIDE_LOCATIONS
    ensures location & 0x7F == location
    ensures !HasBits(location, OVERLAY)
  {
  }

  /** `locate` succeeds exactly for players 0 and 1 and the seven locations, with or without the OVERLAY bit. */
  lemma LocateMeaning(mat: Mat, controller: nat, location: Location)
    requires Shaped(mat)
    ensures Locate(mat, controller, location).Ok? <==> controller < 2 && location & 0x7F in SIDE_LOCATIONS
  {
    ShapedKeys(mat, Key(controller, location & 0x7F));
  }

  lemma Occupant(b: Board, k: Key, i: nat)
    requires PilesOk(b) && k in b.mat && i < |b.mat[k]| && b.mat[k][i].Some?
    ensures b.mat[k][i].value < |b.cards| && Seats(b.cards[b.mat[k][i].value], k, i) && Seated(b, b.mat[k][i].value)
  {
    assert SlotOk(b, k, i);
  }

  /** A card that sits in some container sits in the one its state names, so it is `Seated`. */
  lemma InPileSeated(b: Board, k: Key, x: CardId)
    requires PilesOk(b) && k in b.mat && Some(x) in b.mat[k]
    ensures x < |b.cards| && Seated(b, x) && Key(b.cards[x].current.controller, b.cards[x].current.location) == k
    ensures b.cards[x].overlayTarget.None?
  {
    var i :| 0 <= i < |b.mat[k]| && b.mat[k][i] == Some(x);
    Occupant(b, k, i);
  }

  lemma PileDistinct(b: Board, k: Key)
    requires PilesOk(b) && k in b.mat
    ensures Distinct(b.mat[k])
  {
    forall i, j | 0 <= i < j < |b.mat[k]| && b.mat[k][i].Some?
      ensures b.mat[k][i] != b.mat[k][j]
    {
      Occupant(b, k, i);
      if b.mat[k][j] == b.mat[k][i] {
        Occupant(b, k, j);
      }
    }
  }

  /** Outside the two zones every container slot holds a card of the arena. */
  lemma PileFilled(b: Board, k: Key)
    requires PilesOk(b) && k in b.mat && !IsZone(k.location)
    ensures Filled(b.cards, b.mat[k])
  {
    forall i | 0 <= i < |b.mat[k]|
      ensures b.mat[k][i].Some? && b.mat[k][i].value < |b.cards|
    {
      assert SlotOk(b, k, i);
    }
  }

  /** `_validate` never throws on a valid board. */
  lemma ValidValidates(b: Board, k: Key)
    requires Valid(b) && k in b.mat
    ensures Validated(b, b.mat[k])
  {
    forall i | 0 <= i < |b.mat[k]| && b.mat[k][i].Some?
      ensures b.mat[k][i].value < |b.cards| && b.cards[b.mat[k][i].value].current.sequence == i
    {
      Occupant(b, k, i);
    }
  }

  // ---------------------------------------------------------- frame lemmas

  predicate SeatKept(c: Card, d: Card)
  {
    d.current.controller == c.current.controller && d.current.location == c.current.location
    && d.current.sequence == c.current.sequence && d.overlayTarget == c.overlayTarget
  }

  /**
   * Replacing one container keeps every other container valid when each card
   * of the new container was in the old one or sat nowhere, and every card
   * outside the new container keeps its seat.
   */
  lemma PilesKept(b: Board, b': Board, k: Key)
    requires PilesOk(b) && k in b.mat
    requires k in b'.mat && b'.mat == b.mat[k := b'.mat[k]] && |b'.cards| >= |b.cards|
    requires forall i | 0 <= i < |b'.mat[k]| :: SlotOk(b', k, i)
    requires forall x: CardId | 0 <= x < |b.cards| && Some(x) in b'.mat[k] :: Some(x) in b.mat[k] || !Seated(b, x)
    requires forall x: CardId | 0 <= x < |b.cards| && Some(x) !in b'.mat[k] :: SeatKept(b.cards[x], b'.cards[x])
    ensures PilesOk(b')
  {
    forall k2, i | k2 in b'.mat && 0 <= i < |b'.mat[k2]|
      ensures SlotOk(b', k2, i)
    {
      if k2 != k {
        assert b'.mat[k2] == b.mat[k2];
        assert SlotOk(b, k2, i);
        if b.mat[k2][i].Some? {
          var x := b.mat[k2][i].value;
          Occupant(b, k2, i);
          if Some(x) in b'.mat[k] {
            if Some(x) in b.mat[k] {
              InPileSeated(b, k, x);
            }
          }
        }
      }
    }
  }

  lemma OverlaysKept(b: Board, b': Board)
    requires OverlaysOk(b) && |b'.cards| == |b.cards|
    requires forall x: CardId | 0 <= x < |b.cards| :: b'.cards[x].overlay == b.cards[x].overlay
    requires forall x: CardId | 0 <= x < |b.cards| && b.cards[x].overlayTarget.Some? :: SeatKept(b.cards[x], b'.cards[x])
    ensures OverlaysOk(b')
  {
    forall c, j | 0 <= c < |b'.cards| && 0 <= j < |b'.cards[c].overlay|
      ensures MaterialOk(b', c, j)
    {
      assert MaterialOk(b, c, j);
    }
  }

  // ------------------------------------------------ put keeps the invariant

  lemma InsertMembers(pile: seq<Slot>, at: nat, id: CardId)
    requires at <= |pile|
    ensures forall i | 0 <= i < at :: Insert(pile, at, id)[i] == pile[i]
    ensures Insert(pile, at, id)[at] == Some(id)
    ensures forall i | at < i <= |pile| :: Insert(pile, at, id)[i] == pile[i - 1]
    ensures forall s :: s in Insert(pile, at, id) <==> s in pile || s == Some(id)
  {
    var r := Insert(pile, at, id);
    assert pile == pile[..at] + pile[at..];
    forall s
      ensures s in r <==> s in pile || s == Some(id)
    {
      if s in pile {
        var i :| 0 <= i < |pile| && pile[i] == s;
        if i < at { assert r[i] == s; } else { assert r[i + 1] == s; }
      }
    }
  }

  lemma InsertDistinct(pile: seq<Slot>, at: nat, id: CardId)
    requires at <= |pile| && Distinct(pile) && Some(id) !in pile
    ensures Distinct(Insert(pile, at, id))
  {
    InsertMembers(pile, at, id);
    var r := Insert(pile, at, id);
    forall i, j | 0 <= i < j < |r| && r[i].Some?
      ensures r[i] != r[j]
    {
      var i' := if i < at then i else i - 1;
      var j' := if j < at then j else j - 1;
      if i != at && j != at {
        assert r[i] == pile[i'] && r[j] == pile[j'] && i' < j';
      }
    }
  }

  /**
   * A container replaced by a renumbered one stays valid when its cards are
   * the old container's cards and cards that sat nowhere, all recording this
   * container, and every card outside it keeps its seat.
   */
  lemma ReseatValid(b: Board, k: Key, cards: seq<Card>, pile: seq<Slot>, r: seq<Card>)
    requires Valid(b) && k in b.mat && |cards| == |b.cards|
    requires Distinct(pile) && Renumber(cards, pile, 0) == Ok(r)
    requires forall x: CardId | 0 <= x < |b.cards| && Some(x) in pile ::
      (Some(x) in b.mat[k] || !Seated(b, x)) && b.cards[x].overlayTarget.None?
      && cards[x].current.controller == k.player && cards[x].current.location == k.location && cards[x].overlayTarget.None?
    requires forall x: CardId | 0 <= x < |b.cards| && Some(x) !in pile :: SeatKept(b.cards[x], cards[x])
    requires forall x: CardId | 0 <= x < |b.cards| :: cards[x].overlay == b.cards[x].overlay
    ensures Valid(Board(r, b.mat[k := pile]))
  {
    RenumberEffect(cards, pile, 0, r);
    assert pile[0..] == pile;
    var b' := Board(r, b.mat[k := pile]);
    forall i | 0 <= i < |pile|
      ensures SlotOk(b', k, i)
    {
      var x := pile[i].value;
      assert Some(x) in pile;
    }
    forall x: CardId | 0 <= x < |b.cards| && Some(x) !in pile
      ensures SeatKept(b.cards[x], r[x])
    {
    }
    PilesKept(b, b', k);
    forall x: CardId | 0 <= x < |b.cards| && b.cards[x].overlayTarget.Some?
      ensures SeatKept(b.cards[x], r[x])
    {
    }
    OverlaysKept(b, b');
  }

  /** The index of a card in a container that holds it. */
  ghost function Seat(b: Board, k: Key, x: CardId): (i: nat)
    requires k in b.mat && Some(x) in b.mat[k]
    ensures i < |b.mat[k]| && b.mat[k][i] == Some(x)
  {
    var i :| 0 <= i < |b.mat[k]| && b.mat[k][i] == Some(x); i
  }

  /** A card that may go into `k` and is not already there sits nowhere. */
  lemma FreeNotSeated(b: Board, x: CardId, k: Key)
    requires PilesOk(b) && x < |b.cards| && k in b.mat && Free(b, x, k) && Some(x) !in b.mat[k]
    ensures !Seated(b, x)
  {
  }

  /** A card put on top of a pile, or into a zone slot, keeps the board valid. */
  lemma PlaceValid(b: Board, k: Key, id: CardId, pile: seq<Slot>, sequence: nat, placed: Card)
    requires Valid(b) && k in b.mat && id < |b.cards| && Some(id) !in b.mat[k] && !Seated(b, id)
    requires b.cards[id].overlayTarget.None?
    requires placed == WithSequence(Placed(b.cards[id], k.player, k.location), sequence)
    requires forall x: CardId | 0 <= x < |b.cards| && x != id && Some(x) in pile :: Some(x) in b.mat[k]
    requires forall i | 0 <= i < |pile| :: pile[i] == Some(id) <==> i == sequence
    requires forall i | 0 <= i < |pile| && i != sequence :: pile[i] == (if i < |b.mat[k]| then b.mat[k][i] else None)
    requires forall i | |b.mat[k]| <= i < |pile| && i != sequence :: IsZone(k.location) && pile[i].None?
    requires sequence < |pile|
    ensures Valid(Board(b.cards[id := placed], b.mat[k := pile]))
  {
    var b' := Board(b.cards[id := placed], b.mat[k := pile]);
    assert b'.mat[k] == pile;
    assert pile[sequence] == Some(id);
    forall i | 0 <= i < |pile|
      ensures SlotOk(b', k, i)
    {
      if i == sequence {
        assert pile[i] == Some(id);
        assert Seats(placed, k, i);
      } else if i < |b.mat[k]| {
        assert SlotOk(b, k, i);
        assert pile[i] == b.mat[k][i];
        if pile[i].Some? {
          assert pile[i].value != id;
        }
      } else {
        assert pile[i].None?;
      }
    }
    PilesKept(b, b', k);
    OverlaysKept(b, b');
  }

  /**
   * Hand, graveyard and banished pile, a deck with a non-zero sequence, and
   * the extra deck for a face-up card: the card goes on top, at the pile's
   * length, whatever sequence was asked for.
   */
  lemma PutOnTop(b: Board, id: CardId, controller: nat, location: Location, sequence: nat)
    requires id < |b.cards| && Shaped(b.mat) && controller < 2
    requires location == HAND || location == GRAVE || location == REMOVED
      || (location == DECK && sequence != 0) || (location == EXTRA && HasBits(b.cards[id].current.position, FACEUP))
    requires Some(id) !in b.mat[Key(controller, location)]
    ensures var pile := b.mat[Key(controller, location)];
      Put(b, id, controller, location, sequence)
      == Ok(Board(b.cards[id := WithSequence(Placed(b.cards[id], controller, location), |pile|)],
                  b.mat[Key(controller, location) := pile + [Some(id)]]))
  {
    PlainLocation(location);
    ShapedKeys(b.mat, Key(controller, location));

  }

  /** A zone takes the card at exactly slot `sequence`, growing when the slot lies past its end. */
  lemma PutIntoZone(b: Board, id: CardId, controller: nat, location: Location, sequence: nat)
    requires id < |b.cards| && Shaped(b.mat) && controller < 2 && IsZone(location)
    requires Some(id) !in b.mat[Key(controller, location)]
    ensures var pile := b.mat[Key(controller, location)];
      Put(b, id, controller, location, sequence)
      == Ok(Board(b.cards[id := WithSequence(Placed(b.cards[id], controller, location), sequence)],
                  b.mat[Key(controller, location) := Store(pile, sequence, id)]))
  {
    PlainLocation(location);
    ShapedKeys(b.mat, Key(controller, location));
  }

  /** The index `put` inserts at: 0 in the deck, the extra-deck slot for a face-down card. */
  function InsertAt(cards: seq<Card>, pile: seq<Slot>, location: Location): nat
    requires Filled(cards, pile)
  {
    FirstFaceUpMeaning(cards, pile, 0);
    if location == DECK then 0 else ExtraSlot(FirstFaceUp(cards, pile, 0).value, |pile|)
  }

  /** A deck with sequence 0 and the extra deck for a face-down card: the card is inserted and the pile renumbered. */
  lemma PutInserting(b: Board, id: CardId, controller: nat, location: Location, sequence: nat)
    requires id < |b.cards| && Shaped(b.mat) && controller < 2
    requires (location == DECK && sequence == 0) || (location == EXTRA && !HasBits(b.cards[id].current.position, FACEUP))
    requires Some(id) !in b.mat[Key(controller, location)]
    requires Filled(b.cards, b.mat[Key(controller, location)])
    ensures var k := Key(controller, location);
      var cards := b.cards[id := Placed(b.cards[id], controller, location)];
      Filled(cards, b.mat[k]) &&
      Put(b, id, controller, location, sequence) == Reseat(b, k, cards, Insert(b.mat[k], InsertAt(cards, b.mat[k], location), id))
  {
    PlainLocation(location);
    ShapedKeys(b.mat, Key(controller, location));
    FirstFaceUpMeaning(b.cards[id := Placed(b.cards[id], controller, location)], b.mat[Key(controller, location)], 0);
  }

  lemma PutTopValid(b: Board, id: CardId, controller: nat, location: Location, sequence: nat)
    requires Valid(b) && id < |b.cards| && controller < 2 && b.cards[id].overlayTarget.None?
    requires location == HAND || location == GRAVE || location == REMOVED
      || (location == DECK && sequence != 0) || (location == EXTRA && HasBits(b.cards[id].current.position, FACEUP))
    requires Some(id) !in b.mat[Key(controller, location)] && !Seated(b, id)
    ensures Put(b, id, controller, location, sequence).Ok? && Valid(Put(b, id, controller, location, sequence).value)
  {
    var k := Key(controller, location);
    PutOnTop(b, id, controller, location, sequence);
    ShapedKeys(b.mat, k);
    var pile := b.mat[k];
    var pile' := pile + [Some(id)];
    forall i | 0 <= i < |pile'|
      ensures pile'[i] == Some(id) <==> i == |pile|
    {
      if i < |pile| {
        assert pile'[i] == pile[i];
        assert pile[i] in pile;
      }
    }
    forall x: CardId | 0 <= x < |b.cards| && x != id && Some(x) in pile'
      ensures Some(x) in pile
    {
      var i :| 0 <= i < |pile'| && pile'[i] == Some(x);
      assert pile'[i] == pile[i];
    }
    PlaceValid(b, k, id, pile', |pile|, WithSequence(Placed(b.cards[id], controller, location), |pile|));
  }

  lemma PutZoneValid(b: Board, id: CardId, controller: nat, location: Location, sequence: nat)
    requires Valid(b) && id < |b.cards| && controller < 2 && b.cards[id].overlayTarget.None? && IsZone(location)
    requires Some(id) !in b.mat[Key(controller, location)] && !Seated(b, id)
    ensures Put(b, id, controller, location, sequence).Ok? && Valid(Put(b, id, controller, location, sequence).value)
  {
    var k := Key(controller, location);
    PutIntoZone(b, id, controller, location, sequence);
    ShapedKeys(b.mat, k);
    var pile := b.mat[k];
    var pile' := Store(pile, sequence, id);
    forall i | 0 <= i < |pile'|
      ensures pile'[i] == Some(id) <==> i == sequence
    {
      if i != sequence && i < |pile| {
        assert pile'[i] == pile[i];
        assert pile[i] in pile;
      }
    }
    forall x: CardId | 0 <= x < |b.cards| && x != id && Some(x) in pile'
      ensures Some(x) in pile
    {
      var i :| 0 <= i < |pile'| && pile'[i] == Some(x);
      assert pile'[i] == pile[i];
    }
    PlaceValid(b, k, id, pile', sequence, WithSequence(Placed(b.cards[id], controller, location), sequence));
  }

  lemma PutInsertValid(b: Board, id: CardId, controller: nat, location: Location, sequence: nat)
    requires Valid(b) && id < |b.cards| && controller < 2 && b.cards[id].overlayTarget.None?
    requires (location == DECK && sequence == 0) || (location == EXTRA && !HasBits(b.cards[id].current.position, FACEUP))
    requires Some(id) !in b.mat[Key(controller, location)] && !Seated(b, id)
    ensures Put(b, id, controller, location, sequence).Ok? && Valid(Put(b, id, controller, location, sequence).value)
  {
    var k := Key(controller, location);
    ShapedKeys(b.mat, k);
    PileFilled(b, k);
    PileDistinct(b, k);
    PutInserting(b, id, controller, location, sequence);
    var pile := b.mat[k];
    var cards := b.cards[id := Placed(b.cards[id], controller, location)];
    var at := InsertAt(cards, pile, location);
    var pile' := Insert(pile, at, id);
    InsertMembers(pile, at, id);
    InsertDistinct(pile, at, id);
    forall x: CardId | 0 <= x < |b.cards| && Some(x) in pile'
      ensures (Some(x) in pile || !Seated(b, x)) && b.cards[x].overlayTarget.None?
      ensures cards[x].current.controller == k.player && cards[x].current.location == k.location && cards[x].overlayTarget.None?
    {
      if x != id {
        Occupant(b, k, Seat(b, k, x));
      }
    }
    assert Filled(cards, pile');
    RenumberOk(cards, pile', 0);
    ReseatValid(b, k, cards, pile', Renumber(cards, pile', 0).value);
  }

  /** `put` keeps the board valid, for a card that is no material and sits in no other container. */
  lemma PutKeepsValid(b: Board, id: CardId, controller: nat, location: Location, sequence: nat)
    requires Valid(b) && id < |b.cards| && Free(b, id, Key(controller, location & 0x7F))
    ensures Put(b, id, controller, location, sequence).Ok? ==> Valid(Put(b, id, controller, location, sequence).value)
  {
    var k := Key(controller, location & 0x7F);
    if Put(b, id, controller, location, sequence).Ok? {
      assert controller < 2 && location in SIDE_LOCATIONS && Some(id) !in b.mat[k];
      PlainLocation(location);
      FreeNotSeated(b, id, k);
      if IsZone(location) {
        PutZoneValid(b, id, controller, location, sequence);
      } else if location == HAND || location == GRAVE || location == REMOVED
        || (location == DECK && sequence != 0) || (location == EXTRA && HasBits(b.cards[id].current.position, FACEUP)) {
        PutTopValid(b, id, controller, location, sequence);
      } else {
        PutInsertValid(b, id, controller, location, sequence);
      }
    }
  }

  // ------------------------------------------------- the policies of put

  /**
   * A deck with sequence 0 takes the card at the bottom, index 0, and every
   * card already there moves up by one, being marked dirty as its sequence
   * changes.
   */
  lemma PutDeckBottom(b: Board, id: CardId, controller: nat)
    requires Valid(b) && id < |b.cards| && controller < 2
    requires Some(id) !in b.mat[Key(controller, DECK)]
    ensures Put(b, id, controller, DECK, 0).Ok?
    ensures var k := Key(controller, DECK); var pile := b.mat[k]; var b' := Put(b, id, controller, DECK, 0).value;
      |b'.cards| == |b.cards| && b'.mat == b.mat[k := [Some(id)] + pile]
      && b'.cards[id] == WithSequence(Placed(b.cards[id], controller, DECK), 0)
      && (forall i | 0 <= i < |pile| :: pile[i].Some? && pile[i].value < |b.cards|
            && b'.cards[pile[i].value] == b.cards[pile[i].value].(current := b.cards[pile[i].value].current.(sequence := i + 1), dirty := true))
      && (forall x: CardId | 0 <= x < |b.cards| && x != id && Some(x) !in pile :: b'.cards[x] == b.cards[x])
  {
    var k := Key(controller, DECK);
    ShapedKeys(b.mat, k);
    PileFilled(b, k);
    PileDistinct(b, k);
    PutInserting(b, id, controller, DECK, 0);
    var pile := b.mat[k];
    var cards := b.cards[id := Placed(b.cards[id], controller, DECK)];
    var pile' := Insert(pile, 0, id);
    InsertMembers(pile, 0, id);
    InsertDistinct(pile, 0, id);
    assert pile' == [Some(id)] + pile;
    assert Filled(cards, pile');
    RenumberOk(cards, pile', 0);
    var r := Renumber(cards, pile', 0).value;
    RenumberEffect(cards, pile', 0, r);
    assert pile'[0..] == pile';
    forall i | 0 <= i < |pile|
      ensures r[pile[i].value] == b.cards[pile[i].value].(current := b.cards[pile[i].value].current.(sequence := i + 1), dirty := true)
    {
      Occupant(b, k, i);
      assert pile'[i + 1] == pile[i];
    }
  }

  /** No face-down card of the pile lies above a face-up one. */
  predicate FaceDownFirst(cards: seq<Card>, pile: seq<Slot>)
  {
    forall i, j | 0 <= i < j < |pile| && FaceUpAt(cards, pile, i) :: FaceUpAt(cards, pile, j)
  }

  /**
   * The extra deck takes a face-down card just below its first face-up card;
   * when it holds no face-up card, at index `length - 1` (0 when empty). The
   * pile is renumbered.
   */
  lemma PutExtraFaceDown(b: Board, id: CardId, controller: nat, sequence: nat)
    requires Valid(b) && id < |b.cards| && controller < 2 && b.cards[id].overlayTarget.None?
    requires !HasBits(b.cards[id].current.position, FACEUP)
    requires Some(id) !in b.mat[Key(controller, EXTRA)] && !Seated(b, id)
    ensures Put(b, id, controller, EXTRA, sequence).Ok?
    ensures var k := Key(controller, EXTRA); var pile := b.mat[k]; var b' := Put(b, id, controller, EXTRA, sequence).value;
      exists at | 0 <= at <= |pile| ::
        b'.mat == b.mat[k := Insert(pile, at, id)]
        && ((exists i | 0 <= i < |pile| :: FaceUpAt(b.cards, pile, i)) ==>
              at < |pile| && FaceUpAt(b.cards, pile, at) && forall i | 0 <= i < at :: !FaceUpAt(b.cards, pile, i))
        && ((forall i | 0 <= i < |pile| :: !FaceUpAt(b.cards, pile, i)) ==> at == if |pile| == 0 then 0 else |pile| - 1)
        && Validated(b', b'.mat[k])
  {
    var k := Key(controller, EXTRA);
    ShapedKeys(b.mat, k);
    PileFilled(b, k);
    PutInsertValid(b, id, controller, EXTRA, sequence);
    PutInserting(b, id, controller, EXTRA, sequence);
    var pile := b.mat[k];
    var cards := b.cards[id := Placed(b.cards[id], controller, EXTRA)];
    var at := InsertAt(cards, pile, EXTRA);
    FirstFaceUpMeaning(cards, pile, 0);
    forall i | 0 <= i < |pile|
      ensures FaceUpAt(cards, pile, i) == FaceUpAt(b.cards, pile, i)
    {
      assert pile[i] in pile;
    }
    ValidValidates(Put(b, id, controller, EXTRA, sequence).value, k);
  }

  /** A face-up card lands on top, so it keeps the face-down cards below the face-up ones. */
  lemma ExtraOrderFaceUp(b: Board, id: CardId, controller: nat, sequence: nat)
    requires Valid(b) && id < |b.cards| && controller < 2 && b.cards[id].overlayTarget.None?
    requires Some(id) !in b.mat[Key(controller, EXTRA)] && !Seated(b, id)
    requires HasBits(b.cards[id].current.position, FACEUP)
    requires FaceDownFirst(b.cards, b.mat[Key(controller, EXTRA)])
    ensures Put(b, id, controller, EXTRA, sequence).Ok?
    ensures var b' := Put(b, id, controller, EXTRA, sequence).value;
      FaceDownFirst(b'.cards, b'.mat[Key(controller, EXTRA)])
  {
    var k := Key(controller, EXTRA);
    ShapedKeys(b.mat, k);
    PileFilled(b, k);
    var pile := b.mat[k];
    PutOnTop(b, id, controller, EXTRA, sequence);
    var b' := Put(b, id, controller, EXTRA, sequence).value;
    var pile' := pile + [Some(id)];
    assert b'.mat[k] == pile';
    forall i | 0 <= i < |pile'|
      ensures FaceUpAt(b'.cards, pile', i) == (if i < |pile| then FaceUpAt(b.cards, pile, i) else true)
    {
      if i < |pile| {
        assert pile'[i] == pile[i] && pile[i] in pile;
      }
    }
  }

  /** Inserting a face-down card below every face-up card keeps the order. */
  lemma InsertFaceDown(cards: seq<Card>, cards': seq<Card>, pile: seq<Slot>, at: nat, id: CardId)
    requires at <= |pile| && FaceDownFirst(cards, pile)
    requires forall i | 0 <= i < at :: !FaceUpAt(cards, pile, i)
    requires forall i | 0 <= i < |pile| :: FaceUpAt(cards', pile, i) == FaceUpAt(cards, pile, i)
    requires id < |cards'| && !HasBits(cards'[id].current.position, FACEUP)
    ensures FaceDownFirst(cards', Insert(pile, at, id))
  {
    var pile' := Insert(pile, at, id);
    forall i | 0 <= i < at
      ensures !FaceUpAt(cards', pile', i)
    {
      assert pile'[i] == pile[i];
      assert !FaceUpAt(cards', pile, i);
    }
    assert pile'[at] == Some(id);
    forall i | at < i < |pile'|
      ensures FaceUpAt(cards', pile', i) == FaceUpAt(cards, pile, i - 1)
    {
      assert pile'[i] == pile[i - 1];
      assert FaceUpAt(cards', pile, i - 1) == FaceUpAt(cards, pile, i - 1);
    }
    forall i, j | 0 <= i < j < |pile'| && FaceUpAt(cards', pile', i)
      ensures FaceUpAt(cards', pile', j)
    {
      assert FaceUpAt(cards, pile, i - 1);
    }
  }

  /** A face-down card goes just below the first face-up card, so the order is kept. */
  lemma ExtraOrderFaceDown(b: Board, id: CardId, controller: nat, sequence: nat, at: nat)
    requires Valid(b) && id < |b.cards| && controller < 2 && b.cards[id].overlayTarget.None?
    requires Some(id) !in b.mat[Key(controller, EXTRA)] && !Seated(b, id)
    requires !HasBits(b.cards[id].current.position, FACEUP)
    requires FaceDownFirst(b.cards, b.mat[Key(controller, EXTRA)])
    requires Put(b, id, controller, EXTRA, sequence).Ok?
    requires var pile := b.mat[Key(controller, EXTRA)];
      at <= |pile|
      && Put(b, id, controller, EXTRA, sequence).value.mat[Key(controller, EXTRA)] == Insert(pile, at, id)
      && (forall i | 0 <= i < at :: !FaceUpAt(b.cards, pile, i))
    ensures var b' := Put(b, id, controller, EXTRA, sequence).value;
      FaceDownFirst(b'.cards, b'.mat[Key(controller, EXTRA)])
  {
    var k := Key(controller, EXTRA);
    ShapedKeys(b.mat, k);
    PileFilled(b, k);
    PileDistinct(b, k);
    var pile := b.mat[k];
    var b' := Put(b, id, controller, EXTRA, sequence).value;
    PutInserting(b, id, controller, EXTRA, sequence);
    var cards := b.cards[id := Placed(b.cards[id], controller, EXTRA)];
    var pile' := Insert(pile, InsertAt(cards, pile, EXTRA), id);
    InsertMembers(pile, InsertAt(cards, pile, EXTRA), id);
    InsertDistinct(pile, InsertAt(cards, pile, EXTRA), id);
    RenumberOk(cards, pile', 0);
    RenumberEffect(cards, pile', 0, b'.cards);
    assert pile'[0..] == pile';
    assert Resequenced(cards[id], b'.cards[id]) by {
      assert pile'[InsertAt(cards, pile, EXTRA)] == Some(id);
    }
    forall i | 0 <= i < |pile|
      ensures FaceUpAt(b'.cards, pile, i) == FaceUpAt(b.cards, pile, i)
    {
      assert pile[i] in pile;
    }
    InsertFaceDown(b.cards, b'.cards, pile, at, id);
  }

  /** Putting a card into the extra deck keeps the face-down cards below the face-up ones. */
  lemma ExtraOrderKept(b: Board, id: CardId, controller: nat, sequence: nat)
    requires Valid(b) && id < |b.cards| && controller < 2 && b.cards[id].overlayTarget.None?
    requires Some(id) !in b.mat[Key(controller, EXTRA)] && !Seated(b, id)
    requires FaceDownFirst(b.cards, b.mat[Key(controller, EXTRA)])
    ensures Put(b, id, controller, EXTRA, sequence).Ok?
    ensures var b' := Put(b, id, controller, EXTRA, sequence).value;
      FaceDownFirst(b'.cards, b'.mat[Key(controller, EXTRA)])
  {
    if HasBits(b.cards[id].current.position, FACEUP) {
      ExtraOrderFaceUp(b, id, controller, sequence);
    } else {
      var k := Key(controller, EXTRA);
      var pile := b.mat[k];
      PutExtraFaceDown(b, id, controller, sequence);
      var b' := Put(b, id, controller, EXTRA, sequence).value;
      var at :| 0 <= at <= |pile| && b'.mat == b.mat[k := Insert(pile, at, id)]
        && ((exists i | 0 <= i < |pile| :: FaceUpAt(b.cards, pile, i)) ==>
              at < |pile| && FaceUpAt(b.cards, pile, at) && forall i | 0 <= i < at :: !FaceUpAt(b.cards, pile, i))
        && ((forall i | 0 <= i < |pile| :: !FaceUpAt(b.cards, pile, i)) ==> at == if |pile| == 0 then 0 else |pile| - 1);
      ExtraOrderFaceDown(b, id, controller, sequence, at);
    }
  }

  /** On a valid board `put` fails exactly for a bad player or location and for a card already in the container. */
  lemma PutOutcome(b: Board, id: CardId, controller: nat, location: Location, sequence: nat)
    requires Valid(b) && id < |b.cards|
    ensures Put(b, id, controller, location, sequence).Ok? <==>
      controller < 2 && location in SIDE_LOCATIONS && Some(id) !in b.mat[Key(controller, location)]
  {
    LocateMeaning(b.mat, controller, location);
    if controller < 2 && location in SIDE_LOCATIONS && Some(id) !in b.mat[Key(controller, location)] {
      var k := Key(controller, location);
      PlainLocation(location);
      ShapedKeys(b.mat, k);
      if IsZone(location) {
        PutIntoZone(b, id, controller, location, sequence);
      } else if location == HAND || location == GRAVE || location == REMOVED
        || (location == DECK && sequence != 0) || (location == EXTRA && HasBits(b.cards[id].current.position, FACEUP)) {
        PutOnTop(b, id, controller, location, sequence);
      } else {
        PileFilled(b, k);
        PutInserting(b, id, controller, location, sequence);
        var cards := b.cards[id := Placed(b.cards[id], controller, location)];
        var pile' := Insert(b.mat[k], InsertAt(cards, b.mat[k], location), id);
        InsertMembers(b.mat[k], InsertAt(cards, b.mat[k], location), id);
        assert Filled(cards, pile');
        RenumberOk(cards, pile', 0);
      }
    }
  }

  // ---------------------------------------------------- the policies of remove

  /** Removing from a zone leaves the slot empty and every other slot as it was. */
  lemma RemoveFromZone(b: Board, controller: nat, location: Location, sequence: nat)
    requires Valid(b) && controller < 2 && IsZone(location)
    requires sequence < |b.mat[Key(controller, location)]| && b.mat[Key(controller, location)][sequence].Some?
    ensures Remove(b, controller, location, sequence).Ok?
    ensures var k := Key(controller, location); var pile := b.mat[k]; var r := Remove(b, controller, location, sequence).value;
      r.target == pile[sequence].value && r.target < |b.cards|
      && r.board.cards == b.cards[r.target := b.cards[r.target].(dirty := true)]
      && (forall k2 | k2 in b.mat && k2 != k :: k2 in r.board.mat && r.board.mat[k2] == b.mat[k2])
      && k in r.board.mat && |r.board.mat[k]| == |pile| && r.board.mat[k][sequence].None?
      && (forall i | 0 <= i < |pile| && i != sequence :: r.board.mat[k][i] == pile[i])
  {
    PlainLocation(location);
    ShapedKeys(b.mat, Key(controller, location));
    Occupant(b, Key(controller, location), sequence);
  }

  /**
   * Removing from a pile closes the gap and renumbers: the cards above the
   * removed one move down by one, every card's sequence is its index.
   */
  lemma RemoveFromPile(b: Board, controller: nat, location: Location, sequence: nat)
    requires Valid(b) && controller < 2 && location in SIDE_LOCATIONS && !IsZone(location)
    requires sequence < |b.mat[Key(controller, location)]|
    ensures Remove(b, controller, location, sequence).Ok?
    ensures var k := Key(controller, location); var pile := b.mat[k]; var r := Remove(b, controller, location, sequence).value;
      pile[sequence].Some? && r.target == pile[sequence].value && r.target < |b.cards| && |r.board.cards| == |b.cards|
      && r.board.mat == b.mat[k := pile[..sequence] + pile[sequence + 1..]]
      && Validated(r.board, r.board.mat[k])
      && r.board.cards[r.target] == b.cards[r.target].(dirty := true)
      && (forall x: CardId | 0 <= x < |b.cards| && Some(x) !in pile :: r.board.cards[x] == b.cards[x])
  {
    var k := Key(controller, location);
    PlainLocation(location);
    ShapedKeys(b.mat, k);
    PileFilled(b, k);
    PileDistinct(b, k);
    var pile := b.mat[k];
    var x := pile[sequence].value;
    var cards := b.cards[x := b.cards[x].(dirty := true)];
    var rest := pile[..sequence] + pile[sequence + 1..];
    RestMembers(pile, sequence);
    assert Filled(cards, rest);
    RenumberOk(cards, rest, 0);
    var r := Renumber(cards, rest, 0).value;
    RenumberEffect(cards, rest, 0, r);
    assert rest[0..] == rest;
    forall i | 0 <= i < |rest| && rest[i].Some?
      ensures rest[i].value < |r| && r[rest[i].value].current.sequence == i
    {
      assert r[rest[i].value] == Adjusted(cards[rest[i].value], i);
    }
  }

  /** Closing the gap at `sequence` keeps every other slot and loses the removed one. */
  lemma RestMembers(pile: seq<Slot>, sequence: nat)
    requires sequence < |pile| && Distinct(pile)
    ensures var rest := pile[..sequence] + pile[sequence + 1..];
      |rest| == |pile| - 1
      && (forall i | 0 <= i < sequence :: rest[i] == pile[i])
      && (forall i | sequence <= i < |rest| :: rest[i] == pile[i + 1])
      && (forall s :: s in rest ==> s in pile)
      && (pile[sequence].Some? ==> pile[sequence] !in rest)
      && Distinct(rest)
  {
    var rest := pile[..sequence] + pile[sequence + 1..];
    forall s | s in rest
      ensures s in pile
    {
      var i :| 0 <= i < |rest| && rest[i] == s;
      if i < sequence {
        assert pile[i] == s;
      } else {
        assert pile[i + 1] == s;
      }
    }
    forall i, j | 0 <= i < j < |rest| && rest[i].Some?
      ensures rest[i] != rest[j]
    {
      var i' := if i < sequence then i else i + 1;
      var j' := if j < sequence then j else j + 1;
      assert rest[i] == pile[i'] && rest[j] == pile[j'];
    }
  }

  /** On a valid board `remove` from one of the seven locations fails exactly for a bad player or an empty slot. */
  lemma RemoveOutcome(b: Board, controller: nat, location: Location, sequence: nat)
    requires Valid(b) && location in SIDE_LOCATIONS
    ensures Remove(b, controller, location, sequence).Ok? <==>
      controller < 2 && sequence < |b.mat[Key(controller, location)]| && b.mat[Key(controller, location)][sequence].Some?
  {
    LocateMeaning(b.mat, controller, location);
    PlainLocation(location);
    if controller < 2 {
      ShapedKeys(b.mat, Key(controller, location));
      if sequence < |b.mat[Key(controller, location)]| && b.mat[Key(controller, location)][sequence].Some? {
        if IsZone(location) {
          RemoveFromZone(b, controller, location, sequence);
        } else {
          RemoveFromPile(b, controller, location, sequence);
        }
      }
    }
  }

  /** What `remove` promises about the card it takes: it keeps its state but sits nowhere. */
  predicate Taken(b: Board, r: Removal)
  {
    r.target < |b.cards| && |r.board.cards| == |b.cards|
    && r.board.cards[r.target] == b.cards[r.target].(dirty := true)
    && !Seated(r.board, r.target)
  }

  lemma RemoveZoneValid(b: Board, controller: nat, location: Location, sequence: nat)
    requires Valid(b) && (location == SZONE || location == MZONE)
    requires Remove(b, controller, location, sequence).Ok?
    ensures Valid(Remove(b, controller, location, sequence).value.board)
    ensures Taken(b, Remove(b, controller, location, sequence).value)
  {
    LocateMeaning(b.mat, controller, location);
    PlainLocation(location);
    var k := Key(controller, location);
    ShapedKeys(b.mat, k);
    RemoveFromZone(b, controller, location, sequence);
    PileDistinct(b, k);
    var pile := b.mat[k];
    var x := pile[sequence].value;
    var b' := Remove(b, controller, location, sequence).value.board;
    forall i | 0 <= i < |b'.mat[k]|
      ensures SlotOk(b', k, i)
    {
      if i != sequence && pile[i].Some? {
        Occupant(b, k, i);
      }
    }
    forall y: CardId | 0 <= y < |b.cards| && Some(y) in b'.mat[k]
      ensures Some(y) in b.mat[k]
    {
      var i :| 0 <= i < |b'.mat[k]| && b'.mat[k][i] == Some(y);
      assert pile[i] == Some(y);
    }
    PilesKept(b, b', k);
    OverlaysKept(b, b');
    Occupant(b, k, sequence);
    assert b'.cards[x].current == b.cards[x].current;
  }

  lemma RemoveSpliceValid(b: Board, controller: nat, location: Location, sequence: nat)
    requires Valid(b) && location != SZONE && location != MZONE
    requires Remove(b, controller, location, sequence).Ok?
    ensures Valid(Remove(b, controller, location, sequence).value.board)
    ensures Taken(b, Remove(b, controller, location, sequence).value)
  {
    LocateMeaning(b.mat, controller, location);
    var k := Key(controller, location & 0x7F);
    ShapedKeys(b.mat, k);
    PileDistinct(b, k);
    var pile := b.mat[k];
    var x := pile[sequence].value;
    Occupant(b, k, sequence);
    var cards := b.cards[x := b.cards[x].(dirty := true)];
    var rest := pile[..sequence] + pile[sequence + 1..];
    RestMembers(pile, sequence);
    var r := Renumber(cards, rest, 0).value;
    forall y: CardId | 0 <= y < |b.cards| && Some(y) in rest
      ensures b.cards[y].overlayTarget.None? && cards[y].current.controller == k.player
        && cards[y].current.location == k.location && cards[y].overlayTarget.None?
    {
      assert y != x;
      InPileSeated(b, k, y);
    }
    ReseatValid(b, k, cards, rest, r);
    RenumberEffect(cards, rest, 0, r);
    assert rest[0..] == rest;
    assert r[x] == cards[x];
    var b' := Remove(b, controller, location, sequence).value.board;
    assert b' == Board(r, b.mat[k := rest]);
  }

  /** `remove` keeps the board valid, and the card it takes keeps its state but sits nowhere. */
  lemma RemoveKeepsValid(b: Board, controller: nat, location: Location, sequence: nat)
    requires Valid(b)
    ensures Remove(b, controller, location, sequence).Ok? ==>
      Valid(Remove(b, controller, location, sequence).value.board)
      && Taken(b, Remove(b, controller, location, sequence).value)
  {
    if Remove(b, controller, location, sequence).Ok? {
      if location == SZONE || location == MZONE {
        RemoveZoneValid(b, controller, location, sequence);
      } else {
        RemoveSpliceValid(b, controller, location, sequence);
      }
    }
  }

  // ------------------------------------------------------------ frames

  /**
   * `b'` differs from `b` only in container `k`, which gained no card but
   * `id`, and only in `id` and in cards that were in `k`.
   */
  predicate ChangedAt(b: Board, b': Board, k: Key, id: CardId)
  {
    |b'.cards| == |b.cards| && k in b.mat && k in b'.mat && b'.mat == b.mat[k := b'.mat[k]]
    && (forall x: CardId | 0 <= x < |b.cards| && x != id && Some(x) !in b.mat[k] :: b'.cards[x] == b.cards[x])
    && (forall x: CardId | 0 <= x < |b.cards| && x != id && Some(x) in b'.mat[k] :: Some(x) in b.mat[k])
    && (forall x: CardId | 0 <= x < |b.cards| :: b'.cards[x].overlay == b.cards[x].overlay && b'.cards[x].overlayTarget == b.cards[x].overlayTarget)
    && (forall x: CardId | 0 <= x < |b.cards| && x != id :: Resequenced(b.cards[x], b'.cards[x]))
  }

  /** Putting a card adds it to the pile and keeps every other card of the pile. */
  ghost predicate Grown(pile: seq<Slot>, pile': seq<Slot>, id: CardId)
  {
    Some(id) in pile' && forall x: CardId | x != id && Some(x) in pile' :: Some(x) in pile
  }

  /** `put` touches only the target container, its cards and the card it places. */
  lemma PutFrame(b: Board, id: CardId, controller: nat, location: Location, sequence: nat)
    requires Valid(b) && id < |b.cards| && Put(b, id, controller, location, sequence).Ok?
    ensures ChangedAt(b, Put(b, id, controller, location, sequence).value, Key(controller, location), id)
    ensures var b' := Put(b, id, controller, location, sequence).value;
      Some(id) in b'.mat[Key(controller, location)] && Resequenced(Placed(b.cards[id], controller, location), b'.cards[id])
      && b'.cards[id].dirty
  {
    PutOutcome(b, id, controller, location, sequence);
    var k := Key(controller, location);
    PlainLocation(location);
    ShapedKeys(b.mat, k);
    var pile := b.mat[k];
    if IsZone(location) {
      PutIntoZone(b, id, controller, location, sequence);
      StoreGrown(pile, sequence, id);
    } else if location == HAND || location == GRAVE || location == REMOVED
      || (location == DECK && sequence != 0) || (location == EXTRA && HasBits(b.cards[id].current.position, FACEUP)) {
      PutOnTop(b, id, controller, location, sequence);
      PushGrown(pile, id);
    } else {
      PutInsertFrame(b, id, controller, location, sequence);
    }
  }

  lemma StoreGrown(pile: seq<Slot>, sequence: nat, id: CardId)
    ensures Grown(pile, Store(pile, sequence, id), id)
  {
    var pile' := Store(pile, sequence, id);
    forall x: CardId | x != id && Some(x) in pile'
      ensures Some(x) in pile
    {
      var i :| 0 <= i < |pile'| && pile'[i] == Some(x);
      assert pile'[i] == pile[i];
    }
  }

  lemma PushGrown(pile: seq<Slot>, id: CardId)
    ensures Grown(pile, pile + [Some(id)], id)
  {
    var pile' := pile + [Some(id)];
    assert pile'[|pile|] == Some(id);
    forall x: CardId | x != id && Some(x) in pile'
      ensures Some(x) in pile
    {
      var i :| 0 <= i < |pile'| && pile'[i] == Some(x);
      assert pile'[i] == pile[i];
    }
  }

  lemma PutInsertFrame(b: Board, id: CardId, controller: nat, location: Location, sequence: nat)
    requires Valid(b) && id < |b.cards| && controller < 2 && Key(controller, location) in b.mat && Some(id) !in b.mat[Key(controller, location)]
    requires (location == DECK && sequence == 0) || (location == EXTRA && !HasBits(b.cards[id].current.position, FACEUP))
    ensures Put(b, id, controller, location, sequence).Ok?
    ensures ChangedAt(b, Put(b, id, controller, location, sequence).value, Key(controller, location), id)
    ensures var b' := Put(b, id, controller, location, sequence).value;
      Some(id) in b'.mat[Key(controller, location)] && Resequenced(Placed(b.cards[id], controller, location), b'.cards[id])
      && b'.cards[id].dirty
  {
    var k := Key(controller, location);
    ShapedKeys(b.mat, k);
    PileFilled(b, k);
    PileDistinct(b, k);
    PutInserting(b, id, controller, location, sequence);
    var pile := b.mat[k];
    var cards := b.cards[id := Placed(b.cards[id], controller, location)];
    var at := InsertAt(cards, pile, location);
    var pile' := Insert(pile, at, id);
    InsertMembers(pile, at, id);
    InsertDistinct(pile, at, id);
    assert Filled(cards, pile');
    RenumberOk(cards, pile', 0);
    var r := Renumber(cards, pile', 0).value;
    RenumberEffect(cards, pile', 0, r);
    assert pile'[0..] == pile';
    assert Put(b, id, controller, location, sequence).value == Board(r, b.mat[k := pile']);
  }

  /** `remove` touches only the container it takes from and its cards. */
  lemma RemoveFrame(b: Board, controller: nat, location: Location, sequence: nat)
    requires Valid(b) && Remove(b, controller, location, sequence).Ok?
    ensures var r := Remove(b, controller, location, sequence).value;
      ChangedAt(b, r.board, Key(controller, location & 0x7F), r.target)
  {
    var k := Key(controller, location & 0x7F);
    var pile := b.mat[k];
    var x := pile[sequence].value;
    var cards := b.cards[x := b.cards[x].(dirty := true)];
    if location == SZONE || location == MZONE {
      var pile' := pile[sequence := None];
      forall y: CardId | 0 <= y < |b.cards| && y != x && Some(y) in pile'
        ensures Some(y) in pile
      {
        var i :| 0 <= i < |pile'| && pile'[i] == Some(y);
        assert pile[i] == Some(y);
      }
    } else {
      PileDistinct(b, k);
      var rest := pile[..sequence] + pile[sequence + 1..];
      RestMembers(pile, sequence);
      var r := Renumber(cards, rest, 0).value;
      RenumberEffect(cards, rest, 0, r);
      assert rest[0..] == rest;
    }
  }

  /** A card other than `id` that sat nowhere still sits nowhere, unchanged, after a change confined to `k`. */
  lemma UnseatedKept(b: Board, b': Board, k: Key, id: CardId, x: CardId)
    requires PilesOk(b) && ChangedAt(b, b', k, id)
    requires x < |b.cards| && x != id && !Seated(b, x)
    ensures b'.cards[x] == b.cards[x] && !Seated(b', x)
  {
    if Some(x) in b.mat[k] {
      InPileSeated(b, k, x);
    }
  }

  /** Two records of a card that sit in the same place and carry the same materials. */
  predicate Kept(c: Card, d: Card)
  {
    SeatKept(c, d) && d.overlay == c.overlay
  }

  /** Changing what cards show (code, position, flags, snapshot) and nothing of where they sit keeps the board valid. */
  lemma KeptValid(b: Board, cards: seq<Card>)
    requires Valid(b) && |cards| == |b.cards|
    requires forall x | 0 <= x < |cards| :: Kept(b.cards[x], cards[x])
    ensures Valid(Board(cards, b.mat))
  {
    var b' := Board(cards, b.mat);
    forall k, i | k in b'.mat && 0 <= i < |b'.mat[k]|
      ensures SlotOk(b', k, i)
    {
      assert SlotOk(b, k, i);
    }
    OverlaysKept(b, b');
  }
}
