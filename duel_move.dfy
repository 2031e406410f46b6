/**
 * `_handleMove`: MSG_MOVE, in its six shapes. A card comes from the token
 * pile (spawn), goes to it (despawn), moves between containers, becomes an
 * overlay material, stops being one, or passes from one carrier to another.
 * Overlay materials are listed by their carrier (`overlay.container`) and
 * record it (`overlay.target`); `Attach` and `Detach` are the two list
 * edits the overlay branches make.
 */
module DuelMove {
  import opened Wrappers
  import opened Protocol
  import opened DuelBoard

  /** `container.splice(s, 1)`: an index past the end removes nothing. */
  function Spliced(ids: seq<CardId>, s: nat): (r: seq<CardId>)
    ensures s < |ids| ==> |r| == |ids| - 1
    ensures s >= |ids| ==> r == ids
  {
    if s < |ids| then ids[..s] + ids[s + 1..] else ids
  }

  /** The carrier `o` loses its material at index `s`. */
  function Detach(cards: seq<Card>, o: CardId, s: nat): (r: seq<Card>)
    requires o < |cards|
    ensures |r| == |cards|
  {
    cards[o := cards[o].(overlay := Spliced(cards[o].overlay, s))]
  }

  /**
   * `ol.overlay.container.push(target)`, then the target records its carrier,
   * its index in the carrier's list and the carrier's location with the
   * OVERLAY bit; `withController` also gives it the carrier's controller.
   */
  function Attach(cards: seq<Card>, o: CardId, t: CardId, withController: bool): (r: seq<Card>)
    requires o < |cards| && t < |cards|
    ensures |r| == |cards|
  {
    var cs := cards[o := cards[o].(overlay := cards[o].overlay + [t])];
    var carrier := cs[o];
    var s := cs[t].current;
    cs[t := cs[t].(current := s.(sequence := |carrier.overlay| - 1, location := carrier.current.location | OVERLAY,
                                 controller := if withController then carrier.current.controller else s.controller),
                   overlayTarget := Some(o))]
  }

  /** A token enters: a new card with the given state and code is put at the destination. */
  function Spawn(b: Board, code: int, c: LocInfo): Result<Board>
  {
    var token := SetCode(NewCard(CardState(0, c.controller, c.location, c.sequence, c.posOrSubseq)), code);
    Put(Board(b.cards + [token], b.mat), |b.cards|, c.controller, c.location, c.sequence)
  }

  /** `if (msg.code) { target.set(msg.code) }`, for a card found by `at`. */
  function Recoded(b: Board, t: CardId, code: int): (r: Board)
    requires t < |b.cards|
    ensures r.mat == b.mat && |r.cards| == |b.cards|
  {
    if code != 0 then Board(b.cards[t := SetCode(b.cards[t], code)], b.mat) else b
  }

  /** A token leaves: it takes the code, when one is given, and is removed. */
  function Despawn(b: Board, code: int, p: LocInfo): Result<Board>
  {
    match At(b, p.controller, p.location, p.sequence, None)
    case Err(e) => Err(e)
    case Ok(t) =>
      if code == 0 then
        match Remove(b, p.controller, p.location, p.sequence)
        case Err(e) => Err(e)
        case Ok(r) => Ok(r.board)
      else if t.None? || t.value >= |b.cards| then Err(TYPE_ERROR)
      else
        match Remove(Recoded(b, t.value, code), p.controller, p.location, p.sequence)
        case Err(e) => Err(e)
        case Ok(r) => Ok(r.board)
  }

  /**
   * What a relocated card goes through after `put`: the new position, then
   * the code when one is given or the destination is the extra deck.
   */
  function Arrived(card: Card, code: int, c: LocInfo): Card
  {
    var moved := card.(current := card.current.(position := c.posOrSubseq));
    if code != 0 || c.location == EXTRA then SetCode(moved, code) else moved
  }

  /** The second half of a relocation: `put` the removed card, then let it arrive. */
  function Land(b: Board, t: CardId, code: int, c: LocInfo): Result<Board>
  {
    if t >= |b.cards| then Err(TYPE_ERROR)
    else
      match Put(b, t, c.controller, c.location, c.sequence)
      case Err(e) => Err(e)
      case Ok(b2) => Ok(Board(b2.cards[t := Arrived(b2.cards[t], code, c)], b2.mat))
  }

  /** From one container to another: remove, put, and only then the new position and code. */
  function Relocate(b: Board, code: int, p: LocInfo, c: LocInfo): Result<Board>
  {
    match At(b, p.controller, p.location, p.sequence, None)
    case Err(e) => Err(e)
    case Ok(t) =>
      match Remove(b, p.controller, p.location, p.sequence)
      case Err(e) => Err(e)
      case Ok(r) =>
        if t.None? || t.value >= |b.cards| then Err(TYPE_ERROR) else Land(r.board, t.value, code, c)
  }

  /** The card becomes the carrier's last material, taking its controller, and then its code when one is given. */
  function Mount(b: Board, t: CardId, o: CardId, code: int): (r: Board)
    requires t < |b.cards| && o < |b.cards|
    ensures r.mat == b.mat && |r.cards| == |b.cards|
  {
    var cs := Attach(b.cards, o, t, true);
    Board(if code != 0 then cs[t := SetCode(cs[t], code)] else cs, b.mat)
  }

  /** Onto a carrier: the card leaves its container and becomes the carrier's last material. */
  function ToOverlay(b: Board, code: int, p: LocInfo, c: LocInfo): Result<Board>
  {
    match At(b, p.controller, p.location, p.sequence, None)
    case Err(e) => Err(e)
    case Ok(t) => MountOn(b, code, t, p, c)
  }

  /** The carrier is looked up, then the card `t` found at `p` is removed and mounted on it. */
  function MountOn(b: Board, code: int, t: Option<CardId>, p: LocInfo, c: LocInfo): Result<Board>
  {
    match At(b, c.controller, c.location & 0x7F, c.sequence, None)
    case Err(e) => Err(e)
    case Ok(o) => Embark(b, code, t, o, p)
  }

  /** The card `t` is removed from its container at `p`; both it and the carrier `o` must have been found. */
  function Embark(b: Board, code: int, t: Option<CardId>, o: Option<CardId>, p: LocInfo): Result<Board>
  {
    match Remove(b, p.controller, p.location, p.sequence)
    case Err(e) => Err(e)
    case Ok(r) =>
      if t.None? || o.None? || t.value >= |b.cards| || o.value >= |b.cards| then Err(TYPE_ERROR)
      else Ok(Mount(r.board, t.value, o.value, code))
  }

  /** `target.overlayTarget = null`: the card forgets its carrier. */
  function Freed(b: Board, t: CardId): (r: Board)
    requires t < |b.cards|
    ensures r.mat == b.mat && |r.cards| == |b.cards|
  {
    Board(b.cards[t := b.cards[t].(overlayTarget := None)], b.mat)
  }

  /**
   * Off a carrier: the material at the subsequence is spliced out, the
   * remaining ones renumbered, and the card forgets its carrier and is put.
   */
  function FromOverlay(b: Board, p: LocInfo, c: LocInfo): Result<Board>
  {
    match At(b, p.controller, p.location & 0x7F, p.sequence, None)
    case Err(e) => Err(e)
    case Ok(o) => Disembark(b, o, p.posOrSubseq as nat, c)
  }

  /** The carrier must have been found before its material `s` leaves. */
  function Disembark(b: Board, o: Option<CardId>, s: nat, c: LocInfo): Result<Board>
  {
    if o.None? || o.value >= |b.cards| then Err(TYPE_ERROR) else Unmount(b, o.value, s, c)
  }

  /** Material `s` of carrier `o` leaves for the destination `c`. */
  function Unmount(b: Board, o: CardId, s: nat, c: LocInfo): Result<Board>
    requires o < |b.cards|
  {
    var materials := b.cards[o].overlay;
    var cs := Detach(b.cards, o, s);
    match Renumber(cs, Somes<CardId>(cs[o].overlay), 0)
    case Err(e) => Err(e)
    case Ok(cs2) =>
      if s >= |materials| || materials[s] >= |b.cards| then Err(TYPE_ERROR)
      else
        var t := materials[s];
        Put(Freed(Board(cs2, b.mat), t), t, c.controller, c.location, c.sequence)
  }

  /**
   * From one carrier to another: spliced out of the first list, pushed onto
   * the second, the first renumbered. The card keeps its controller.
   */
  function Transfer(b: Board, p: LocInfo, c: LocInfo): Result<Board>
  {
    match At(b, p.controller, p.location & 0x7F, p.sequence, None)
    case Err(e) => Err(e)
    case Ok(o1) => ShiftOnto(b, o1, p.posOrSubseq as nat, c)
  }

  /** The second carrier is looked up for material `s` of the first. */
  function ShiftOnto(b: Board, o1: Option<CardId>, s: nat, c: LocInfo): Result<Board>
  {
    match At(b, c.controller, c.location & 0x7F, c.sequence, None)
    case Err(e) => Err(e)
    case Ok(o2) => Between(b, o1, s, o2)
  }

  /** Both carriers must have been found. */
  function Between(b: Board, o1: Option<CardId>, s: nat, o2: Option<CardId>): Result<Board>
  {
    if o1.None? || o2.None? || o1.value >= |b.cards| || o2.value >= |b.cards| then Err(TYPE_ERROR)
    else Shift(b, o1.value, s, o2.value)
  }

  /** Material `s` of carrier `o1` moves to the end of the materials of `o2`. */
  function Shift(b: Board, o1: CardId, s: nat, o2: CardId): Result<Board>
    requires o1 < |b.cards| && o2 < |b.cards|
  {
    var materials := b.cards[o1].overlay;
    if s >= |materials| || materials[s] >= |b.cards| then Err(TYPE_ERROR)
    else
      var cs := Attach(Detach(b.cards, o1, s), o2, materials[s], false);
      match Renumber(cs, Somes<CardId>(cs[o1].overlay), 0)
      case Err(e) => Err(e)
      case Ok(cs2) => Ok(Board(cs2, b.mat))
  }

  /** `_handleMove`: the branch is chosen on the token pile (location 0) and the OVERLAY bits. */
  function Move(b: Board, code: int, p: LocInfo, c: LocInfo): Result<Board>
  {
    if p.location == 0 then Spawn(b, code, c)
    else if c.location == 0 then Despawn(b, code, p)
    else if !HasBits(p.location, OVERLAY) && !HasBits(c.location, OVERLAY) then Relocate(b, code, p, c)
    else if !HasBits(p.location, OVERLAY) then ToOverlay(b, code, p, c)
    else if !HasBits(c.location, OVERLAY) then FromOverlay(b, p, c)
    else Transfer(b, p, c)
  }

  // ------------------------------------------------------ overlay edits

  /** A card that sits in no container and in no carrier's list. */
  predicate Loose(b: Board, t: CardId)
  {
    t < |b.cards| && !Seated(b, t)
    && forall c, j | 0 <= c < |b.cards| && 0 <= j < |b.cards[c].overlay| :: b.cards[c].overlay[j] != t
  }

  /** A card that sits nowhere is in no container slot. */
  lemma LooseNotInPile(b: Board, t: CardId, k: Key, i: nat)
    requires PilesOk(b) && Loose(b, t) && k in b.mat && i < |b.mat[k]|
    ensures b.mat[k][i] != Some(t)
  {
    if b.mat[k][i] == Some(t) {
      Occupant(b, k, i);
    }
  }

  /** The card `remove` takes from a container is loose afterwards. */
  lemma TakenLoose(b: Board, r: Removal)
    requires Valid(r.board) && Taken(b, r) && b.cards[r.target].overlayTarget.None?
    ensures Loose(r.board, r.target)
  {
    forall c, j | 0 <= c < |r.board.cards| && 0 <= j < |r.board.cards[c].overlay|
      ensures r.board.cards[c].overlay[j] != r.target
    {
      assert MaterialOk(r.board, c, j);
    }
  }

  /** Pushing a loose card onto a carrier keeps the board valid. */
  lemma AttachValid(b: Board, o: CardId, t: CardId, withController: bool)
    requires Valid(b) && o < |b.cards| && Loose(b, t)
    ensures Valid(Board(Attach(b.cards, o, t, withController), b.mat))
  {
    var f := Attach(b.cards, o, t, withController);
    var b' := Board(f, b.mat);
    forall x | 0 <= x < |f| && x != t
      ensures f[x].current == b.cards[x].current && f[x].overlayTarget == b.cards[x].overlayTarget
      ensures f[x].overlay == if x == o then b.cards[o].overlay + [t] else b.cards[x].overlay
    {
    }
    assert f[t].overlay == if t == o then b.cards[o].overlay + [t] else b.cards[t].overlay;
    forall k, i | k in b'.mat && 0 <= i < |b'.mat[k]|
      ensures SlotOk(b', k, i)
    {
      assert SlotOk(b, k, i);
      LooseNotInPile(b, t, k, i);
    }
    forall c, j | 0 <= c < |f| && 0 <= j < |f[c].overlay|
      ensures MaterialOk(b', c, j)
    {
      if c == o && j == |b.cards[o].overlay| {
        assert f[c].overlay[j] == t;
      } else {
        assert f[c].overlay[j] == b.cards[c].overlay[j];
        assert MaterialOk(b, c, j);
      }
    }
  }

  /** Forgetting the carrier of a loose card keeps the board valid, and the card free to be put. */
  lemma ReleaseValid(b: Board, t: CardId)
    requires Valid(b) && Loose(b, t)
    ensures var b' := Freed(b, t);
      Valid(b') && Loose(b', t) && forall k :: Free(b', t, k)
  {
    var b' := Freed(b, t);
    forall k, i | k in b'.mat && 0 <= i < |b'.mat[k]|
      ensures SlotOk(b', k, i)
    {
      assert SlotOk(b, k, i);
      LooseNotInPile(b, t, k, i);
    }
    forall c, j | 0 <= c < |b'.cards| && 0 <= j < |b'.cards[c].overlay|
      ensures MaterialOk(b', c, j)
    {
      assert MaterialOk(b, c, j);
    }
  }

  /** The materials of a carrier are distinct, since each records its own index. */
  lemma MaterialsDistinct(b: Board, o: CardId)
    requires OverlaysOk(b) && o < |b.cards|
    ensures Distinct(Somes<CardId>(b.cards[o].overlay))
  {
    var m := b.cards[o].overlay;
    forall i, j | 0 <= i < j < |m|
      ensures m[i] != m[j]
    {
      assert MaterialOk(b, o, i) && MaterialOk(b, o, j);
    }
  }

  /** What `forEach(adjustSequence)` over a material list did to the arena. */
  ghost predicate Renumbered(cs: seq<Card>, ids: seq<CardId>, r: seq<Card>)
  {
    |r| == |cs|
    && (forall x | 0 <= x < |cs| :: Resequenced(cs[x], r[x]))
    && (forall x: CardId | 0 <= x < |cs| && x !in ids :: r[x] == cs[x])
    && (forall i | 0 <= i < |ids| :: ids[i] < |cs| && r[ids[i]] == Adjusted(cs[ids[i]], i))
  }

  lemma RenumberedSlots(cs: seq<Card>, ids: seq<CardId>, r: seq<Card>)
    requires Renumber(cs, Somes<CardId>(ids), 0) == Ok(r) && Distinct(Somes<CardId>(ids))
    ensures Renumbered(cs, ids, r)
  {
    RenumberEffect(cs, Somes<CardId>(ids), 0, r);
    assert Somes<CardId>(ids)[0..] == Somes<CardId>(ids);
    forall x: CardId | 0 <= x < |cs| && x !in ids
      ensures Some(x) !in Somes<CardId>(ids)
    {
    }
  }

  /** The materials left after the splice: all of the carrier's but the one taken, each recording the carrier. */
  lemma DetachRest(b: Board, o: CardId, s: nat)
    requires Valid(b) && o < |b.cards| && b.cards[o].overlayTarget.None? && s < |b.cards[o].overlay|
    ensures var m := b.cards[o].overlay; var rest := Spliced(m, s);
      Distinct(Somes<CardId>(rest)) && m[s] !in rest && m[s] < |b.cards| && b.cards[m[s]].overlayTarget == Some(o)
      && (forall x | x in rest :: x < |b.cards| && b.cards[x].overlayTarget == Some(o))
      && Filled(Detach(b.cards, o, s), Somes<CardId>(rest))
  {
    var m := b.cards[o].overlay;
    var rest := Spliced(m, s);
    MaterialsDistinct(b, o);
    RestMembers(Somes<CardId>(m), s);
    assert Somes<CardId>(rest) == Somes<CardId>(m)[..s] + Somes<CardId>(m)[s + 1..];
    assert MaterialOk(b, o, s);
    forall i | 0 <= i < |rest|
      ensures rest[i] < |b.cards| && b.cards[rest[i]].overlayTarget == Some(o) && rest[i] != m[s]
    {
      var i' := if i < s then i else i + 1;
      assert rest[i] == m[i'] && Somes<CardId>(rest)[i] == Somes<CardId>(m)[i'];
      assert MaterialOk(b, o, i');
    }
  }

  /**
   * Splicing material `s` out of a carrier that sits in a container and
   * renumbering the rest keeps the board valid; the material is untouched
   * and loose.
   */
  lemma DetachValid(b: Board, o: CardId, s: nat)
    requires Valid(b) && o < |b.cards| && b.cards[o].overlayTarget.None? && s < |b.cards[o].overlay|
    ensures var cs := Detach(b.cards, o, s);
      Renumber(cs, Somes<CardId>(cs[o].overlay), 0).Ok?
      && var r := Renumber(cs, Somes<CardId>(cs[o].overlay), 0).value;
      var t := b.cards[o].overlay[s];
      Valid(Board(r, b.mat)) && Loose(Board(r, b.mat), t) && r[t] == b.cards[t]
      && r[o].overlay == Spliced(b.cards[o].overlay, s)
  {
    var m := b.cards[o].overlay;
    var rest := Spliced(m, s);
    var cs := Detach(b.cards, o, s);
    DetachRest(b, o, s);
    RenumberOk(cs, Somes<CardId>(rest), 0);
    var r := Renumber(cs, Somes<CardId>(rest), 0).value;
    RenumberedSlots(cs, rest, r);
    DetachPiles(b, o, s, r);
    DetachOverlays(b, o, s, r);
    var b' := Board(r, b.mat);
    var t := m[s];
    assert t != o && r[t] == cs[t] == b.cards[t];
    if Seated(b', t) {
      var st := r[t].current;
      Occupant(b', Key(st.controller, st.location), st.sequence);
    }
    forall c, j | 0 <= c < |r| && 0 <= j < |r[c].overlay|
      ensures r[c].overlay[j] != t
    {
      assert MaterialOk(b', c, j);
    }
  }

  lemma DetachPiles(b: Board, o: CardId, s: nat, r: seq<Card>)
    requires Valid(b) && o < |b.cards| && b.cards[o].overlayTarget.None? && s < |b.cards[o].overlay|
    requires forall x | x in Spliced(b.cards[o].overlay, s) :: x < |b.cards| && b.cards[x].overlayTarget == Some(o)
    requires Renumbered(Detach(b.cards, o, s), Spliced(b.cards[o].overlay, s), r)
    ensures PilesOk(Board(r, b.mat))
  {
    var b' := Board(r, b.mat);
    var cs := Detach(b.cards, o, s);
    forall k, i | k in b'.mat && 0 <= i < |b'.mat[k]|
      ensures SlotOk(b', k, i)
    {
      assert SlotOk(b, k, i);
      if b.mat[k][i].Some? {
        var x := b.mat[k][i].value;
        assert x !in Spliced(b.cards[o].overlay, s);
        assert r[x] == cs[x];
      }
    }
  }

  lemma DetachOverlays(b: Board, o: CardId, s: nat, r: seq<Card>)
    requires Valid(b) && o < |b.cards| && b.cards[o].overlayTarget.None? && s < |b.cards[o].overlay|
    requires forall x | x in Spliced(b.cards[o].overlay, s) :: x < |b.cards| && b.cards[x].overlayTarget == Some(o)
    requires Renumbered(Detach(b.cards, o, s), Spliced(b.cards[o].overlay, s), r)
    ensures OverlaysOk(Board(r, b.mat))
  {
    var b' := Board(r, b.mat);
    var cs := Detach(b.cards, o, s);
    var rest := Spliced(b.cards[o].overlay, s);
    forall c, j | 0 <= c < |r| && 0 <= j < |r[c].overlay|
      ensures MaterialOk(b', c, j)
    {
      assert Resequenced(cs[c], r[c]);
      if c == o {
        assert r[c].overlay[j] == rest[j] && rest[j] in rest;
        assert r[rest[j]] == Adjusted(cs[rest[j]], j);
      } else {
        assert r[c].overlay == b.cards[c].overlay;
        assert MaterialOk(b, c, j);
        var m := b.cards[c].overlay[j];
        assert m !in rest;
        assert r[m] == cs[m];
      }
    }
  }

  /** A new card with no materials joins the arena; it sits nowhere and the board stays valid. */
  lemma GrowValid(b: Board, card: Card)
    requires Valid(b) && card.overlay == [] && card.overlayTarget.None?
    ensures Valid(Board(b.cards + [card], b.mat)) && !Seated(Board(b.cards + [card], b.mat), |b.cards|)
    ensures forall k | k in b.mat :: Some(|b.cards|) !in b.mat[k]
  {
    var b' := Board(b.cards + [card], b.mat);
    forall k, i | k in b'.mat && 0 <= i < |b'.mat[k]|
      ensures SlotOk(b', k, i) && b.mat[k][i] != Some(|b.cards|)
    {
      assert SlotOk(b, k, i);
    }
    forall c, j | 0 <= c < |b'.cards| && 0 <= j < |b'.cards[c].overlay|
      ensures MaterialOk(b', c, j)
    {
      assert MaterialOk(b, c, j);
    }
  }

  // ------------------------------------------------------------ branches

  /** `at` without the OVERLAY bit finds the card seated in the slot, the one `remove` takes. */
  lemma AtOccupant(b: Board, controller: nat, location: Location, sequence: nat, x: CardId)
    requires Valid(b) && !HasBits(location, OVERLAY) && At(b, controller, location, sequence, None) == Ok(Some(x))
    ensures location in SIDE_LOCATIONS && controller < 2 && location & 0x7F == location
    ensures var k := Key(controller, location); k in b.mat && sequence < |b.mat[k]| && b.mat[k][sequence] == Some(x)
    ensures x < |b.cards| && b.cards[x].overlayTarget.None? && Seated(b, x)
    ensures Remove(b, controller, location, sequence).Ok? && Remove(b, controller, location, sequence).value.target == x
  {
    assert location & 0x7F == location;
    var k := Key(controller, location);
    LocateMeaning(b.mat, controller, location);
    Occupant(b, k, sequence);
    RemoveOutcome(b, controller, location, sequence);
  }

  /** A token is refused only for a bad player or location. */
  lemma SpawnOutcome(b: Board, code: int, c: LocInfo)
    requires Valid(b)
    ensures Spawn(b, code, c).Ok? <==> c.controller < 2 && c.location in SIDE_LOCATIONS
  {
    var token := SetCode(NewCard(CardState(0, c.controller, c.location, c.sequence, c.posOrSubseq)), code);
    GrowValid(b, token);
    LocateMeaning(b.mat, c.controller, c.location);
    ShapedKeys(b.mat, Key(c.controller, c.location));
    PutOutcome(Board(b.cards + [token], b.mat), |b.cards|, c.controller, c.location, c.sequence);
  }

  /** A token lands in its destination container with its code; nothing outside that container changes. */
  lemma SpawnEffect(b: Board, code: int, c: LocInfo)
    requires Valid(b) && Spawn(b, code, c).Ok?
    ensures var b' := Spawn(b, code, c).value; var id := |b.cards|; var k := Key(c.controller, c.location);
      Valid(b') && |b'.cards| == id + 1 && k in b.mat && k in b'.mat && Some(id) in b'.mat[k]
      && b'.cards[id].current.code == code && b'.cards[id].current.controller == c.controller
      && b'.cards[id].current.location == c.location && b'.cards[id].current.position == c.posOrSubseq
      && b'.cards[id].dirty && b'.cards[id].overlay == [] && b'.cards[id].overlayTarget.None?
      && (forall x | 0 <= x < id && Some(x) !in b.mat[k] :: b'.cards[x] == b.cards[x])
  {
    var token := SetCode(NewCard(CardState(0, c.controller, c.location, c.sequence, c.posOrSubseq)), code);
    var b1 := Board(b.cards + [token], b.mat);
    var id := |b.cards|;
    GrowValid(b, token);
    PutKeepsValid(b1, id, c.controller, c.location, c.sequence);
    PutFrame(b1, id, c.controller, c.location, c.sequence);
    forall x | 0 <= x < id
      ensures b1.cards[x] == b.cards[x]
    {
    }
  }

  /** Without the OVERLAY bit a despawn fails exactly where `at` does. */
  lemma DespawnOutcome(b: Board, code: int, p: LocInfo)
    requires Valid(b) && !HasBits(p.location, OVERLAY)
    ensures Despawn(b, code, p).Ok? <==> At(b, p.controller, p.location, p.sequence, None).Ok?
  {
    if At(b, p.controller, p.location, p.sequence, None).Ok? {
      var x := At(b, p.controller, p.location, p.sequence, None).value.value;
      DespawnEffect(b, code, p, x);
    }
  }

  /** A despawned token sits nowhere afterwards, carrying the code the message gives. */
  lemma DespawnEffect(b: Board, code: int, p: LocInfo, x: CardId)
    requires Valid(b) && !HasBits(p.location, OVERLAY) && At(b, p.controller, p.location, p.sequence, None) == Ok(Some(x))
    ensures Despawn(b, code, p).Ok?
    ensures var b' := Despawn(b, code, p).value;
      Valid(b') && |b'.cards| == |b.cards| && x < |b.cards| && !Seated(b', x) && b'.cards[x].dirty
      && b'.cards[x].current == (if code != 0 then b.cards[x].current.(code := code) else b.cards[x].current)
  {
    AtOccupant(b, p.controller, p.location, p.sequence, x);
    var b1 := Recoded(b, x, code);
    RecodedValid(b, x, code);
    RemoveTaken(b1, p.controller, p.location, p.sequence, x);
    if code == 0 {
      assert b1 == b;
    }
  }

  /** Setting a code keeps the board valid and leaves `at` finding the same card. */
  lemma RecodedValid(b: Board, t: CardId, code: int)
    requires Valid(b) && t < |b.cards|
    ensures Valid(Recoded(b, t, code))
    ensures forall controller, location, sequence :: !HasBits(location, OVERLAY) ==>
      At(Recoded(b, t, code), controller, location, sequence, None) == At(b, controller, location, sequence, None)
    ensures Recoded(b, t, code).cards[t].current == if code != 0 then b.cards[t].current.(code := code) else b.cards[t].current
  {
    KeptValid(b, Recoded(b, t, code).cards);
    assert Recoded(b, t, code) == Board(Recoded(b, t, code).cards, b.mat);
  }

  /** `remove` at a slot `at` finds occupied keeps the board valid and takes that very card. */
  lemma RemoveTaken(b: Board, controller: nat, location: Location, sequence: nat, x: CardId)
    requires Valid(b) && !HasBits(location, OVERLAY) && At(b, controller, location, sequence, None) == Ok(Some(x))
    ensures Remove(b, controller, location, sequence).Ok?
    ensures var r := Remove(b, controller, location, sequence).value;
      r.target == x && Valid(r.board) && Taken(b, r)
  {
    AtOccupant(b, controller, location, sequence, x);
    RemoveKeepsValid(b, controller, location, sequence);
  }

  /** Despawning keeps the board valid in every case, the OVERLAY bit included. */
  lemma DespawnValid(b: Board, code: int, p: LocInfo)
    requires Valid(b)
    ensures Despawn(b, code, p).Ok? ==> Valid(Despawn(b, code, p).value)
  {
    if Despawn(b, code, p).Ok? {
      if code == 0 {
        RemoveKeepsValid(b, p.controller, p.location, p.sequence);
      } else {
        var t := At(b, p.controller, p.location, p.sequence, None).value.value;
        RecodedValid(b, t, code);
        RemoveKeepsValid(Recoded(b, t, code), p.controller, p.location, p.sequence);
      }
    }
  }

  /** A card that sits nowhere and has no carrier may be put anywhere `put` accepts: exactly a good player and location. */
  lemma LoosePut(b: Board, x: CardId, controller: nat, location: Location, sequence: nat)
    requires Valid(b) && x < |b.cards| && !Seated(b, x) && b.cards[x].overlayTarget.None?
    ensures Put(b, x, controller, location, sequence).Ok? <==> controller < 2 && location in SIDE_LOCATIONS
    ensures Put(b, x, controller, location, sequence).Ok? ==>
      var b2 := Put(b, x, controller, location, sequence).value;
      Valid(b2) && ChangedAt(b, b2, Key(controller, location), x)
      && Some(x) in b2.mat[Key(controller, location)] && b2.cards[x].dirty
      && Resequenced(Placed(b.cards[x], controller, location), b2.cards[x])
  {
    var k := Key(controller, location & 0x7F);
    LocateMeaning(b.mat, controller, location);
    if controller < 2 && location & 0x7F in SIDE_LOCATIONS {
      ShapedKeys(b.mat, k);
      if Some(x) in b.mat[k] {
        InPileSeated(b, k, x);
      }
    }
    PutOutcome(b, x, controller, location, sequence);
    if Put(b, x, controller, location, sequence).Ok? {
      PutKeepsValid(b, x, controller, location, sequence);
      PutFrame(b, x, controller, location, sequence);
    }
  }

  /** The card `remove` took is free to be put anywhere `put` accepts. */
  lemma TakenPut(b: Board, r: Removal, x: CardId, controller: nat, location: Location, sequence: nat)
    requires Valid(b) && Valid(r.board) && Taken(b, r) && r.target == x && b.cards[x].overlayTarget.None?
    ensures Put(r.board, x, controller, location, sequence).Ok? <==> controller < 2 && location in SIDE_LOCATIONS
    ensures Put(r.board, x, controller, location, sequence).Ok? ==>
      var b2 := Put(r.board, x, controller, location, sequence).value;
      Valid(b2) && ChangedAt(r.board, b2, Key(controller, location), x)
      && Some(x) in b2.mat[Key(controller, location)] && b2.cards[x].dirty
      && Resequenced(Placed(b.cards[x], controller, location), b2.cards[x])
  {
    LoosePut(r.board, x, controller, location, sequence);
    assert Placed(r.board.cards[x], controller, location) == Placed(b.cards[x], controller, location);
  }

  /** Relocating the occupant of an ordinary slot is removing it and landing it. */
  lemma RelocateSplit(b: Board, code: int, p: LocInfo, c: LocInfo, x: CardId)
    requires Valid(b) && !HasBits(p.location, OVERLAY) && At(b, p.controller, p.location, p.sequence, None) == Ok(Some(x))
    ensures Remove(b, p.controller, p.location, p.sequence).Ok?
    ensures var r := Remove(b, p.controller, p.location, p.sequence).value;
      x < |b.cards| && r.target == x && Valid(r.board) && Taken(b, r) && b.cards[x].overlayTarget.None?
      && Relocate(b, code, p, c) == Land(r.board, x, code, c)
  {
    RemoveTaken(b, p.controller, p.location, p.sequence, x);
    AtOccupant(b, p.controller, p.location, p.sequence, x);
  }

  /** Landing the card `remove` took: it fails only on a bad destination, and the card arrives as the message says. */
  lemma LandEffect(b: Board, r: Removal, x: CardId, code: int, c: LocInfo)
    requires Valid(b) && Valid(r.board) && Taken(b, r) && r.target == x && b.cards[x].overlayTarget.None?
    ensures Land(r.board, x, code, c).Ok? <==> c.controller < 2 && c.location in SIDE_LOCATIONS
    ensures Land(r.board, x, code, c).Ok? ==>
      var b' := Land(r.board, x, code, c).value; var k := Key(c.controller, c.location);
      Valid(b') && |b'.cards| == |b.cards| && k in b'.mat && Some(x) in b'.mat[k]
      && b'.cards[x].current == b.cards[x].current.(controller := c.controller, location := c.location,
           sequence := b'.cards[x].current.sequence, position := c.posOrSubseq,
           code := if code != 0 || c.location == EXTRA then code else b.cards[x].current.code)
      && b'.cards[x].dirty && b'.cards[x].previous == b.cards[x].previous
  {
    TakenPut(b, r, x, c.controller, c.location, c.sequence);
    if c.controller < 2 && c.location in SIDE_LOCATIONS {
      var b2 := Put(r.board, x, c.controller, c.location, c.sequence).value;
      KeptValid(b2, b2.cards[x := Arrived(b2.cards[x], code, c)]);
    }
  }

  /**
   * A card moved between containers lands in the destination with the new
   * position and, when given or bound for the extra deck, the new code; only
   * a bad destination makes the move fail.
   */
  lemma RelocateEffect(b: Board, code: int, p: LocInfo, c: LocInfo, x: CardId)
    requires Valid(b) && !HasBits(p.location, OVERLAY) && At(b, p.controller, p.location, p.sequence, None) == Ok(Some(x))
    ensures Relocate(b, code, p, c).Ok? <==> c.controller < 2 && c.location in SIDE_LOCATIONS
    ensures Relocate(b, code, p, c).Ok? ==>
      var b' := Relocate(b, code, p, c).value; var k := Key(c.controller, c.location);
      Valid(b') && x < |b.cards| && |b'.cards| == |b.cards| && k in b'.mat && Some(x) in b'.mat[k]
      && b'.cards[x].current == b.cards[x].current.(controller := c.controller, location := c.location,
           sequence := b'.cards[x].current.sequence, position := c.posOrSubseq,
           code := if code != 0 || c.location == EXTRA then code else b.cards[x].current.code)
      && b'.cards[x].dirty && b'.cards[x].previous == b.cards[x].previous
  {
    RelocateSplit(b, code, p, c, x);
    LandEffect(b, Remove(b, p.controller, p.location, p.sequence).value, x, code, c);
  }

  /** Onto the extra deck, the card the policy sees face-up goes on top. */
  lemma LandOnExtraTop(b: Board, r: Removal, x: CardId, code: int, c: LocInfo)
    requires Valid(b) && Valid(r.board) && Taken(b, r) && r.target == x && b.cards[x].overlayTarget.None?
    requires c.controller < 2 && c.location == EXTRA && HasBits(b.cards[x].current.position, FACEUP)
    requires Key(c.controller, EXTRA) in b.mat && r.board.mat[Key(c.controller, EXTRA)] == b.mat[Key(c.controller, EXTRA)]
    ensures Land(r.board, x, code, c).Ok?
    ensures var b' := Land(r.board, x, code, c).value; var k := Key(c.controller, EXTRA);
      k in b'.mat && b'.mat[k] == b.mat[k] + [Some(x)] && b'.cards[x].current.position == c.posOrSubseq
  {
    var k := Key(c.controller, EXTRA);
    TakenPut(b, r, x, c.controller, c.location, c.sequence);
    if Some(x) in r.board.mat[k] {
      InPileSeated(r.board, k, x);
    }
    PutOnTop(r.board, x, c.controller, EXTRA, c.sequence);
  }

  /**
   * The extra-deck policy of `put` sees the position the card had before the
   * move: a card that was face-up goes on top of the extra deck whatever
   * position the message gives it.
   */
  lemma RelocateSeesOldPosition(b: Board, code: int, p: LocInfo, c: LocInfo, x: CardId)
    requires Valid(b) && !HasBits(p.location, OVERLAY) && At(b, p.controller, p.location, p.sequence, None) == Ok(Some(x))
    requires c.controller < 2 && c.location == EXTRA && Key(p.controller, p.location) != Key(c.controller, EXTRA)
    requires x < |b.cards| && HasBits(b.cards[x].current.position, FACEUP)
    ensures Relocate(b, code, p, c).Ok?
    ensures var b' := Relocate(b, code, p, c).value; var k := Key(c.controller, EXTRA);
      k in b.mat && k in b'.mat && b'.mat[k] == b.mat[k] + [Some(x)] && b'.cards[x].current.position == c.posOrSubseq
  {
    var k := Key(c.controller, EXTRA);
    RelocateSplit(b, code, p, c, x);
    RemoveFrame(b, p.controller, p.location, p.sequence);
    ShapedKeys(b.mat, k);
    LandOnExtraTop(b, Remove(b, p.controller, p.location, p.sequence).value, x, code, c);
  }

  /** Moving the occupant of an ordinary slot onto a carrier is removing it and mounting it. */
  lemma ToOverlaySplit(b: Board, code: int, p: LocInfo, c: LocInfo, t: CardId, o: CardId)
    requires Valid(b) && !HasBits(p.location, OVERLAY) && At(b, p.controller, p.location, p.sequence, None) == Ok(Some(t))
    requires At(b, c.controller, c.location & 0x7F, c.sequence, None) == Ok(Some(o))
    ensures Remove(b, p.controller, p.location, p.sequence).Ok?
    ensures var r := Remove(b, p.controller, p.location, p.sequence).value;
      t < |b.cards| && o < |b.cards| && r.target == t && Valid(r.board) && Taken(b, r) && b.cards[t].overlayTarget.None?
      && ChangedAt(b, r.board, Key(p.controller, p.location & 0x7F), t)
      && ToOverlay(b, code, p, c) == Ok(Mount(r.board, t, o, code))
  {
    RemoveTaken(b, p.controller, p.location, p.sequence, t);
    AtOccupant(b, p.controller, p.location, p.sequence, t);
    assert !HasBits(c.location & 0x7F, OVERLAY);
    AtOccupant(b, c.controller, c.location & 0x7F, c.sequence, o);
    RemoveFrame(b, p.controller, p.location, p.sequence);
    ToOverlayIs(b, code, p, c, t, o, Remove(b, p.controller, p.location, p.sequence).value);
  }

  lemma ToOverlayIs(b: Board, code: int, p: LocInfo, c: LocInfo, t: CardId, o: CardId, r: Removal)
    requires At(b, p.controller, p.location, p.sequence, None) == Ok(Some(t))
    requires At(b, c.controller, c.location & 0x7F, c.sequence, None) == Ok(Some(o))
    requires Remove(b, p.controller, p.location, p.sequence) == Ok(r) && t < |b.cards| && o < |b.cards|
    ensures ToOverlay(b, code, p, c) == Ok(Mount(r.board, t, o, code))
  {
  }

  /** Where `Mount` leaves the material and the carrier. */
  lemma MountShape(b: Board, t: CardId, o: CardId, code: int)
    requires t < |b.cards| && o < |b.cards|
    ensures var m := Mount(b, t, o, code);
      m.cards[o].overlay == b.cards[o].overlay + [t] && m.cards[t].overlayTarget == Some(o)
      && m.cards[t].current.sequence == |b.cards[o].overlay|
      && m.cards[t].current.code == (if code != 0 then code else b.cards[t].current.code)
      && (t != o ==> m.cards[t].current.location == m.cards[o].current.location | OVERLAY
                     && m.cards[t].current.controller == m.cards[o].current.controller && m.cards[o].current == b.cards[o].current)
  {
  }

  /** Mounting the card `remove` took keeps the board valid, and the card sits in no container. */
  lemma MountValid(b: Board, r: Removal, t: CardId, o: CardId, code: int)
    requires Valid(b) && Valid(r.board) && Taken(b, r) && r.target == t && b.cards[t].overlayTarget.None? && o < |b.cards|
    ensures Valid(Mount(r.board, t, o, code)) && !Seated(Mount(r.board, t, o, code), t) && Mount(r.board, t, o, code).cards[t].dirty
  {
    TakenLoose(b, r);
    AttachValid(r.board, o, t, true);
    var a := Board(Attach(r.board.cards, o, t, true), r.board.mat);
    if code != 0 {
      KeptValid(a, a.cards[t := SetCode(a.cards[t], code)]);
    }
    var m := Mount(r.board, t, o, code);
    if Seated(m, t) {
      InPileSeated(m, Key(m.cards[t].current.controller, m.cards[t].current.location), t);
    }
  }

  /**
   * A card moved from a container onto a carrier leaves the container, is
   * appended to the carrier's materials with the carrier's location and
   * controller, and takes the code when one is given.
   */
  lemma ToOverlayEffect(b: Board, code: int, p: LocInfo, c: LocInfo, t: CardId, o: CardId)
    requires Valid(b) && !HasBits(p.location, OVERLAY) && At(b, p.controller, p.location, p.sequence, None) == Ok(Some(t))
    requires At(b, c.controller, c.location & 0x7F, c.sequence, None) == Ok(Some(o))
    ensures ToOverlay(b, code, p, c).Ok?
    ensures var b' := ToOverlay(b, code, p, c).value;
      Valid(b') && t < |b.cards| && o < |b.cards| && |b'.cards| == |b.cards|
      && b'.cards[o].overlay == b.cards[o].overlay + [t] && b'.cards[t].overlayTarget == Some(o)
      && b'.cards[t].current.sequence == |b.cards[o].overlay| && !Seated(b', t) && b'.cards[t].dirty
      && b'.cards[t].current.code == (if code != 0 then code else b.cards[t].current.code)
      && (t != o ==> b'.cards[t].current.location == b'.cards[o].current.location | OVERLAY
                     && b'.cards[t].current.controller == b'.cards[o].current.controller)
  {
    ToOverlaySplit(b, code, p, c, t, o);
    var r := Remove(b, p.controller, p.location, p.sequence).value;
    MountShape(r.board, t, o, code);
    MountValid(b, r, t, o, code);
  }

  /** The carrier found at an ordinary slot is a card of the arena with no carrier of its own. */
  lemma CarrierFound(b: Board, controller: nat, location: Location, sequence: nat, o: CardId)
    requires Valid(b) && At(b, controller, location & 0x7F, sequence, None) == Ok(Some(o))
    ensures o < |b.cards| && b.cards[o].overlayTarget.None?
  {
    assert !HasBits(location & 0x7F, OVERLAY);
    AtOccupant(b, controller, location & 0x7F, sequence, o);
  }

  lemma UnmountIs(b: Board, o: CardId, s: nat, c: LocInfo, cs2: seq<Card>)
    requires o < |b.cards| && s < |b.cards[o].overlay| && b.cards[o].overlay[s] < |b.cards|
    requires var cs := Detach(b.cards, o, s); Renumber(cs, Somes<CardId>(cs[o].overlay), 0) == Ok(cs2)
    ensures var t := b.cards[o].overlay[s];
      |cs2| == |b.cards| && Unmount(b, o, s, c) == Put(Freed(Board(cs2, b.mat), t), t, c.controller, c.location, c.sequence)
  {
  }

  /** A loose material that forgets its carrier is put as any loose card is. */
  lemma DropEffect(d: Board, t: CardId, c: LocInfo)
    requires Valid(d) && Loose(d, t)
    ensures Put(Freed(d, t), t, c.controller, c.location, c.sequence).Ok? <==> c.controller < 2 && c.location in SIDE_LOCATIONS
    ensures Put(Freed(d, t), t, c.controller, c.location, c.sequence).Ok? ==>
      var b' := Put(Freed(d, t), t, c.controller, c.location, c.sequence).value; var k := Key(c.controller, c.location);
      Valid(b') && |b'.cards| == |d.cards| && (forall x | 0 <= x < |d.cards| :: b'.cards[x].overlay == d.cards[x].overlay)
      && k in b'.mat && Some(t) in b'.mat[k] && b'.cards[t].overlayTarget.None? && b'.cards[t].dirty
      && b'.cards[t].current == d.cards[t].current.(controller := c.controller, location := c.location, sequence := b'.cards[t].current.sequence)
  {
    ReleaseValid(d, t);
    LoosePut(Freed(d, t), t, c.controller, c.location, c.sequence);
  }

  /**
   * A material moved off its carrier to a container: the move fails exactly
   * when the subsequence names no material or the destination is bad;
   * otherwise the carrier keeps the other materials in order and the card
   * lands in the destination with no carrier.
   */
  lemma UnmountEffect(b: Board, o: CardId, s: nat, c: LocInfo)
    requires Valid(b) && o < |b.cards| && b.cards[o].overlayTarget.None?
    ensures Unmount(b, o, s, c).Ok? <==> s < |b.cards[o].overlay| && c.controller < 2 && c.location in SIDE_LOCATIONS
    ensures Unmount(b, o, s, c).Ok? ==>
      var b' := Unmount(b, o, s, c).value; var k := Key(c.controller, c.location); var t := b.cards[o].overlay[s];
      Valid(b') && t < |b.cards| && |b'.cards| == |b.cards| && b'.cards[o].overlay == Spliced(b.cards[o].overlay, s)
      && k in b'.mat && Some(t) in b'.mat[k] && b'.cards[t].overlayTarget.None? && b'.cards[t].dirty
      && b'.cards[t].current == b.cards[t].current.(controller := c.controller, location := c.location, sequence := b'.cards[t].current.sequence)
  {
    if s < |b.cards[o].overlay| {
      assert MaterialOk(b, o, s);
      DetachValid(b, o, s);
      var cs := Detach(b.cards, o, s);
      var cs2 := Renumber(cs, Somes<CardId>(cs[o].overlay), 0).value;
      UnmountIs(b, o, s, c, cs2);
      DropEffect(Board(cs2, b.mat), b.cards[o].overlay[s], c);
    }
  }

  /** A move off a carrier at an ordinary slot unmounts material `posOrSubseq` of the card found there. */
  lemma FromOverlayUnmounts(b: Board, p: LocInfo, c: LocInfo, o: CardId)
    requires Valid(b) && At(b, p.controller, p.location & 0x7F, p.sequence, None) == Ok(Some(o))
    ensures o < |b.cards| && b.cards[o].overlayTarget.None?
    ensures FromOverlay(b, p, c) == Unmount(b, o, p.posOrSubseq as nat, c)
  {
    CarrierFound(b, p.controller, p.location, p.sequence, o);
  }

  /** A move between carriers at ordinary slots shifts material `posOrSubseq` of the first onto the second. */
  lemma TransferShifts(b: Board, p: LocInfo, c: LocInfo, o1: CardId, o2: CardId)
    requires Valid(b) && At(b, p.controller, p.location & 0x7F, p.sequence, None) == Ok(Some(o1))
    requires At(b, c.controller, c.location & 0x7F, c.sequence, None) == Ok(Some(o2))
    ensures o1 < |b.cards| && b.cards[o1].overlayTarget.None? && o2 < |b.cards| && b.cards[o2].overlayTarget.None?
    ensures Transfer(b, p, c) == Shift(b, o1, p.posOrSubseq as nat, o2)
  {
    CarrierFound(b, p.controller, p.location, p.sequence, o1);
    CarrierFound(b, c.controller, c.location, c.sequence, o2);
    TransferIs(b, p, c, o1, o2);
  }

  lemma TransferIs(b: Board, p: LocInfo, c: LocInfo, o1: CardId, o2: CardId)
    requires At(b, p.controller, p.location & 0x7F, p.sequence, None) == Ok(Some(o1))
    requires At(b, c.controller, c.location & 0x7F, c.sequence, None) == Ok(Some(o2))
    requires o1 < |b.cards| && o2 < |b.cards|
    ensures Transfer(b, p, c) == Shift(b, o1, p.posOrSubseq as nat, o2)
  {
    assert Transfer(b, p, c) == Between(b, Some(o1), p.posOrSubseq as nat, Some(o2));
  }

  /** Where the materials of two carriers stand after the material moved between them was detached and renumbered. */
  lemma ShiftParts(b: Board, o1: CardId, s: nat, o2: CardId)
    requires Valid(b) && o1 < |b.cards| && b.cards[o1].overlayTarget.None? && o2 < |b.cards| && b.cards[o2].overlayTarget.None?
    requires s < |b.cards[o1].overlay|
    ensures var d := Detach(b.cards, o1, s); var t := b.cards[o1].overlay[s];
      Renumber(d, Somes<CardId>(d[o1].overlay), 0).Ok?
      && var r := Renumber(d, Somes<CardId>(d[o1].overlay), 0).value;
      Valid(Board(r, b.mat)) && Loose(Board(r, b.mat), t) && r[t] == b.cards[t] == d[t] && t != o1 && t != o2
      && Renumbered(d, d[o1].overlay, r) && o2 !in d[o1].overlay && t !in d[o1].overlay && o1 !in d[o1].overlay
      && Valid(Board(Attach(r, o2, t, false), b.mat))
  {
    var d := Detach(b.cards, o1, s);
    var t := b.cards[o1].overlay[s];
    DetachValid(b, o1, s);
    var r := Renumber(d, Somes<CardId>(d[o1].overlay), 0).value;
    assert MaterialOk(b, o1, s);
    MaterialsDistinct(Board(r, b.mat), o1);
    RenumberedSlots(d, d[o1].overlay, r);
    forall i | 0 <= i < |d[o1].overlay|
      ensures d[o1].overlay[i] != o2 && d[o1].overlay[i] != o1 && d[o1].overlay[i] != t
    {
      assert MaterialOk(Board(r, b.mat), o1, i);
    }
    AttachValid(Board(r, b.mat), o2, t, false);
  }

  /**
   * `splice`, push, then `forEach(adjustSequence)` on the first carrier
   * leaves the same arena as renumbering the first carrier before the push.
   */
  lemma ShiftCommutes(b: Board, o1: CardId, s: nat, o2: CardId)
    requires Valid(b) && o1 < |b.cards| && b.cards[o1].overlayTarget.None? && o2 < |b.cards| && b.cards[o2].overlayTarget.None?
    requires s < |b.cards[o1].overlay|
    ensures var d := Detach(b.cards, o1, s); var t := b.cards[o1].overlay[s];
      t < |b.cards| && Renumber(d, Somes<CardId>(d[o1].overlay), 0).Ok?
      && var a := Attach(Renumber(d, Somes<CardId>(d[o1].overlay), 0).value, o2, t, false);
      Valid(Board(a, b.mat)) && Shift(b, o1, s, o2) == Ok(Board(a, b.mat))
  {
    ShiftParts(b, o1, s, o2);
    var d := Detach(b.cards, o1, s);
    var t := b.cards[o1].overlay[s];
    var ids := d[o1].overlay;
    var r := Renumber(d, Somes<CardId>(ids), 0).value;
    var a := Attach(r, o2, t, false);
    var cs := Attach(d, o2, t, false);
    var ids' := cs[o1].overlay;
    assert ids' == a[o1].overlay;
    MaterialsDistinct(Board(a, b.mat), o1);
    assert Filled(cs, Somes<CardId>(ids')) by {
      forall i | 0 <= i < |ids'|
        ensures ids'[i] < |cs|
      {
        assert MaterialOk(Board(a, b.mat), o1, i);
      }
    }
    RenumberOk(cs, Somes<CardId>(ids'), 0);
    var r' := Renumber(cs, Somes<CardId>(ids'), 0).value;
    RenumberedSlots(cs, ids', r');
    forall x | 0 <= x < |cs|
      ensures r'[x] == a[x]
    {
      CommuteCard(d, o1, o2, t, r, r', x);
    }
    assert r' == a;
  }

  /** One card of the arena after push-then-renumber agrees with renumber-then-push. */
  lemma CommuteCard(d: seq<Card>, o1: CardId, o2: CardId, t: CardId, r: seq<Card>, r': seq<Card>, x: CardId)
    requires o1 < |d| && o2 < |d| && t < |d| && x < |d| && t != o1 && t != o2
    requires var ids := d[o1].overlay; o2 !in ids && t !in ids && o1 !in ids && Renumbered(d, ids, r) && r[t] == d[t]
    requires var cs := Attach(d, o2, t, false); Renumbered(cs, cs[o1].overlay, r')
    ensures r'[x] == Attach(r, o2, t, false)[x]
  {
    var ids := d[o1].overlay;
    var cs := Attach(d, o2, t, false);
    var ids' := cs[o1].overlay;
    assert ids' == if o1 == o2 then ids + [t] else ids;
    var a := Attach(r, o2, t, false);
    assert r[o2] == d[o2];
    assert cs[t] == a[t];
    if x in ids {
      var i :| 0 <= i < |ids| && ids[i] == x;
      assert ids'[i] == x;
      assert r'[x] == Adjusted(cs[x], i) && cs[x] == d[x] && r[x] == Adjusted(d[x], i) && a[x] == r[x];
    } else if x == t {
      if o1 == o2 {
        assert ids'[|ids|] == x;
        assert r'[x] == Adjusted(cs[x], |ids|) && cs[x].current.sequence == |ids|;
      } else {
        assert x !in ids';
      }
    } else {
      assert x !in ids' && r'[x] == cs[x];
      if x != o2 {
        assert cs[x] == d[x] && r[x] == d[x] && a[x] == r[x];
      }
    }
  }

  /**
   * A material moved between carriers: the move fails exactly when the
   * subsequence names no material; otherwise the card is the last material
   * of the second carrier, with its location, and keeps its own controller,
   * and the first carrier keeps its other materials in order.
   */
  lemma ShiftEffect(b: Board, o1: CardId, s: nat, o2: CardId)
    requires Valid(b) && o1 < |b.cards| && b.cards[o1].overlayTarget.None? && o2 < |b.cards| && b.cards[o2].overlayTarget.None?
    ensures Shift(b, o1, s, o2).Ok? <==> s < |b.cards[o1].overlay|
    ensures Shift(b, o1, s, o2).Ok? ==>
      var b' := Shift(b, o1, s, o2).value; var t := b.cards[o1].overlay[s];
      var rest := Spliced(b.cards[o1].overlay, s);
      Valid(b') && t < |b.cards| && |b'.cards| == |b.cards|
      && b'.cards[o2].overlay == (if o1 == o2 then rest else b.cards[o2].overlay) + [t]
      && (o1 != o2 ==> b'.cards[o1].overlay == rest)
      && b'.cards[t].overlayTarget == Some(o2) && b'.cards[t].current.sequence == |b'.cards[o2].overlay| - 1
      && b'.cards[t].current.location == b'.cards[o2].current.location | OVERLAY
      && b'.cards[t].current.controller == b.cards[t].current.controller
  {
    if s < |b.cards[o1].overlay| {
      ShiftCommutes(b, o1, s, o2);
      ShiftParts(b, o1, s, o2);
      var d := Detach(b.cards, o1, s);
      var r := Renumber(d, Somes<CardId>(d[o1].overlay), 0).value;
      assert r[o2].overlay == d[o2].overlay && r[o1].overlay == d[o1].overlay;
    }
  }

  lemma RelocateValid(b: Board, code: int, p: LocInfo, c: LocInfo)
    requires Valid(b) && !HasBits(p.location, OVERLAY)
    ensures Relocate(b, code, p, c).Ok? ==> Valid(Relocate(b, code, p, c).value)
  {
    var x := At(b, p.controller, p.location, p.sequence, None);
    if x.Ok? && x.value.Some? {
      RelocateEffect(b, code, p, c, x.value.value);
    }
  }

  lemma ToOverlayValid(b: Board, code: int, p: LocInfo, c: LocInfo)
    requires Valid(b) && !HasBits(p.location, OVERLAY)
    ensures ToOverlay(b, code, p, c).Ok? ==> Valid(ToOverlay(b, code, p, c).value)
  {
    var t := At(b, p.controller, p.location, p.sequence, None);
    var o := At(b, c.controller, c.location & 0x7F, c.sequence, None);
    if t.Ok? && t.value.Some? && o.Ok? && o.value.Some? {
      ToOverlayEffect(b, code, p, c, t.value.value, o.value.value);
    }
  }

  lemma FromOverlayValid(b: Board, p: LocInfo, c: LocInfo)
    requires Valid(b)
    ensures FromOverlay(b, p, c).Ok? ==> Valid(FromOverlay(b, p, c).value)
  {
    var o := At(b, p.controller, p.location & 0x7F, p.sequence, None);
    if o.Ok? && o.value.Some? {
      FromOverlayUnmounts(b, p, c, o.value.value);
      UnmountEffect(b, o.value.value, p.posOrSubseq as nat, c);
    }
  }

  lemma TransferValid(b: Board, p: LocInfo, c: LocInfo)
    requires Valid(b)
    ensures Transfer(b, p, c).Ok? ==> Valid(Transfer(b, p, c).value)
  {
    var o1 := At(b, p.controller, p.location & 0x7F, p.sequence, None);
    var o2 := At(b, c.controller, c.location & 0x7F, c.sequence, None);
    if o1.Ok? && o1.value.Some? && o2.Ok? && o2.value.Some? {
      TransferShifts(b, p, c, o1.value.value, o2.value.value);
      ShiftEffect(b, o1.value.value, p.posOrSubseq as nat, o2.value.value);
    } else {
      TransferNeedsCarriers(b, p, c);
    }
  }

  /** Without a card at both ends there is no move between carriers. */
  lemma TransferNeedsCarriers(b: Board, p: LocInfo, c: LocInfo)
    requires var o1 := At(b, p.controller, p.location & 0x7F, p.sequence, None);
      var o2 := At(b, c.controller, c.location & 0x7F, c.sequence, None);
      !(o1.Ok? && o1.value.Some? && o2.Ok? && o2.value.Some?)
    ensures Transfer(b, p, c).Err?
  {
  }

  /** Every branch of `_handleMove` that succeeds leaves a valid board. */
  lemma MoveKeepsValid(b: Board, code: int, p: LocInfo, c: LocInfo)
    requires Valid(b)
    ensures Move(b, code, p, c).Ok? ==> Valid(Move(b, code, p, c).value)
  {
    if p.location == 0 {
      if Spawn(b, code, c).Ok? {
        SpawnEffect(b, code, c);
      }
    } else if c.location == 0 {
      DespawnValid(b, code, p);
    } else if !HasBits(p.location, OVERLAY) && !HasBits(c.location, OVERLAY) {
      RelocateValid(b, code, p, c);
    } else if !HasBits(p.location, OVERLAY) {
      ToOverlayValid(b, code, p, c);
    } else if !HasBits(c.location, OVERLAY) {
      FromOverlayValid(b, p, c);
    } else {
      TransferValid(b, p, c);
    }
  }

  /** A move never forgets a card: the arena only grows, by one token card at most. */
  lemma MoveKeepsArena(b: Board, code: int, p: LocInfo, c: LocInfo)
    ensures Move(b, code, p, c).Ok? ==> |b.cards| <= |Move(b, code, p, c).value.cards| <= |b.cards| + 1
  {
    if p.location == 0 {
    } else if c.location == 0 {
      DespawnArena(b, code, p);
    } else if !HasBits(p.location, OVERLAY) && !HasBits(c.location, OVERLAY) {
      RelocateArena(b, code, p, c);
    } else if !HasBits(p.location, OVERLAY) {
      ToOverlayArena(b, code, p, c);
    } else if !HasBits(c.location, OVERLAY) {
      FromOverlayArena(b, p, c);
    } else {
      TransferArena(b, p, c);
    }
  }

  lemma DespawnArena(b: Board, code: int, p: LocInfo)
    ensures Despawn(b, code, p).Ok? ==> |Despawn(b, code, p).value.cards| == |b.cards|
  {
  }

  lemma RelocateArena(b: Board, code: int, p: LocInfo, c: LocInfo)
    ensures Relocate(b, code, p, c).Ok? ==> |Relocate(b, code, p, c).value.cards| == |b.cards|
  {
  }

  lemma ToOverlayArena(b: Board, code: int, p: LocInfo, c: LocInfo)
    ensures ToOverlay(b, code, p, c).Ok? ==> |ToOverlay(b, code, p, c).value.cards| == |b.cards|
  {
  }

  lemma FromOverlayArena(b: Board, p: LocInfo, c: LocInfo)
    ensures FromOverlay(b, p, c).Ok? ==> |FromOverlay(b, p, c).value.cards| == |b.cards|
  {
  }

  lemma TransferArena(b: Board, p: LocInfo, c: LocInfo)
    ensures Transfer(b, p, c).Ok? ==> |Transfer(b, p, c).value.cards| == |b.cards|
  {
  }
}
