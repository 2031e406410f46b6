/**
 * `DuelState` as an object. The card arena and the containers of the duel
 * mat are fields that `put`, `remove`, `_cleanup`, `init`, `_handleMove`
 * and `handle` update step by step, with the loops of the source; `log`
 * collects the texts handed to the `onLog` and `onHintMessage` listeners.
 * Every method is proved to leave exactly the state that the value model
 * of `DuelBoard`, `DuelMove` and `DuelHandle` describes, so the properties
 * proved there (validity, the effect of each message) carry over.
 */
module DuelClient {
  import opened Wrappers
  import opened Protocol
  import opened Common
  import opened DuelText
  import opened DuelBoard
  import opened DuelMove
  import opened DuelHandle

  /** The outcome of an operation whose value is not used: its error, if any. */
  function Done<T>(r: Result<T>): (d: Result<()>)
    ensures d.Ok? <==> r.Ok?
    ensures d.Err? ==> d.error == r.error
  {
    match r
    case Err(e) => Err(e)
    case Ok(_) => Ok(())
  }

  /** The outcome of a reveal loop with `lines` logged before it. */
  function RevealedAfter(lines: seq<Note>, r: Result<Revealed>): (p: Result<Revealed>)
    ensures p.Ok? <==> r.Ok?
    ensures p.Ok? ==> p.value.cards == r.value.cards && p.value.notes == lines + r.value.notes
  {
    match r
    case Err(e) => Err(e)
    case Ok(rv) => Ok(Revealed(rv.cards, lines + rv.notes))
  }

  /** The outcome of a target loop with `lines` logged before it. */
  function Preceded(lines: seq<Note>, r: Result<seq<Note>>): (p: Result<seq<Note>>)
    ensures p.Ok? <==> r.Ok?
    ensures p.Ok? ==> p.value == lines + r.value
  {
    match r
    case Err(e) => Err(e)
    case Ok(notes) => Ok(lines + notes)
  }

  /** A line reported after `lines` and before `rest`. */
  lemma Regroup<T>(lines: seq<T>, line: T, rest: seq<T>)
    ensures lines + ([line] + rest) == (lines + [line]) + rest
  {
  }

  /** Logging `lines` and then `line` before a reveal loop is logging `lines + [line]` before it. */
  lemma RevealedNest(lines: seq<Note>, line: Note, r: Result<Revealed>)
    ensures RevealedAfter(lines, RevealedAfter([line], r)) == RevealedAfter(lines + [line], r)
  {
    if r.Ok? {
      Regroup(lines, line, r.value.notes);
    }
  }

  /** Logging `lines` and then `line` before a target loop is logging `lines + [line]` before it. */
  lemma PrecededNest(lines: seq<Note>, line: Note, r: Result<seq<Note>>)
    ensures Preceded(lines, Preceded([line], r)) == Preceded(lines + [line], r)
  {
    if r.Ok? {
      Regroup(lines, line, r.value);
    }
  }

  class DuelState {
    /** The `system` strings `_render` reads. */
    const strings: Templates
    /** The card database behind `query`. */
    const query: Query

    var cards: seq<Card>
    var mat: Mat
    var turn: Option<int>
    var turnPlayer: Option<int>
    var phase: Option<int>
    var lp: seq<Option<int>>
    var chainTarget: Option<CardId>
    var hintEvent: string
    var message: Option<Message>
    /** Every text reported so far, in order. */
    var log: seq<Note>

    /** The cards and containers as a value. */
    function Snapshot(): Board
      reads this
    {
      Board(cards, mat)
    }

    /** The whole object as a value. */
    function State(): Duel
      reads this
    {
      Duel(Board(cards, mat), turn, turnPlayer, phase, lp, chainTarget, hintEvent, message)
    }

    /** The counters, the chain target, the hint and the message did not change. */
    twostate predicate Kept()
      reads this
    {
      turn == old(turn) && turnPlayer == old(turnPlayer) && phase == old(phase) && lp == old(lp)
      && chainTarget == old(chainTarget) && hintEvent == old(hintEvent) && message == old(message)
    }

    /** Nothing but the cards and the containers changed. */
    twostate predicate BoardOnly()
      reads this
    {
      Kept() && log == old(log)
    }

    /**
     * The object made the step `f` describes: it failed with the same error,
     * or it is now the duel of the step and reported the step's texts.
     */
    twostate predicate Stepped(new f: Result<Step>, new r: Result<()>)
      reads this
    {
      r == Done(f) && (r.Ok? ==> State() == f.value.duel && log == old(log) + f.value.notes)
    }

    /** The client's invariant, as the value model states it. */
    ghost predicate Valid()
      reads this
    {
      DuelValid(State())
    }

    /** `new DuelState(...)`: the empty mat of a new duel and no texts reported yet. */
    constructor(t: Templates, q: Query)
      ensures State() == FRESH && log == [] && strings == t && query == q
      ensures Valid()
    {
      strings := t;
      query := q;
      cards := [];
      mat := EmptyMat();
      turn := None;
      turnPlayer := None;
      phase := None;
      lp := [None, None];
      chainTarget := None;
      hintEvent := "";
      message := None;
      log := [];
      new;
      FreshValid();
    }

    // --------------------------------------------------------- containers

    /** `container.forEach(this.adjustSequence)`: every card of `pile` takes its index there. */
    method Renumber(pile: seq<Slot>) returns (r: Result<()>)
      modifies this
      ensures r == Done(DuelBoard.Renumber(old(cards), pile, 0))
      ensures r.Ok? ==> cards == DuelBoard.Renumber(old(cards), pile, 0).value
      ensures mat == old(mat) && BoardOnly()
    {
      var i := 0;
      while i < |pile|
        invariant i <= |pile| && mat == old(mat) && BoardOnly()
        invariant DuelBoard.Renumber(cards, pile, i) == DuelBoard.Renumber(old(cards), pile, 0)
        decreases |pile| - i
      {
        if pile[i].None? || pile[i].value >= |cards| {
          return Err(TYPE_ERROR);
        }
        var x := pile[i].value;
        cards := cards[x := Adjusted(cards[x], i)];
        i := i + 1;
      }
      return Ok(());
    }

    /**
     * `put(card, controller, location, sequence)`, with the collide check of
     * the debugging configuration: the container is located, the card marked
     * dirty and placed, then pushed, stored or inserted by the location's
     * policy and, for an insertion, the container renumbered.
     */
    method Put(id: CardId, controller: nat, location: Location, sequence: nat) returns (r: Result<()>)
      requires id < |cards|
      modifies this
      ensures r == Done(DuelBoard.Put(old(Snapshot()), id, controller, location, sequence))
      ensures r.Ok? ==> Snapshot() == DuelBoard.Put(old(Snapshot()), id, controller, location, sequence).value
      ensures BoardOnly()
    {
      var located := Locate(mat, controller, location);
      if located.Err? {
        return Err(located.error);
      }
      var k := located.value;
      var pile := mat[k];
      var j := 0;
      while j < |pile|
        invariant j <= |pile| && Some(id) !in pile[..j]
      {
        if pile[j] == Some(id) {
          return Err(COLLIDE);
        }
        assert pile[..j + 1] == pile[..j] + [pile[j]];
        j := j + 1;
      }
      assert pile[..j] == pile;
      var placed := Placed(cards[id], controller, location);
      cards := cards[id := placed];
      if location == HAND || location == GRAVE || location == REMOVED {
        mat := mat[k := pile + [Some(id)]];
        cards := cards[id := WithSequence(placed, |pile|)];
      } else if location == MZONE || location == SZONE {
        mat := mat[k := Store(pile, sequence, id)];
        cards := cards[id := WithSequence(placed, sequence)];
      } else if location == DECK {
        if sequence != 0 {
          mat := mat[k := pile + [Some(id)]];
          cards := cards[id := WithSequence(placed, |pile|)];
        } else {
          mat := mat[k := Insert(pile, 0, id)];
          r := Renumber(mat[k]);
          return;
        }
      } else if location == EXTRA {
        if HasBits(placed.current.position, FACEUP) {
          mat := mat[k := pile + [Some(id)]];
          cards := cards[id := WithSequence(placed, |pile|)];
        } else {
          var f := FirstFaceUp(cards, pile, 0);
          if f.Err? {
            return Err(f.error);
          }
          mat := mat[k := Insert(pile, ExtraSlot(f.value, |pile|), id)];
          r := Renumber(mat[k]);
          return;
        }
      } else {
        return Err(INVALID_LOCATION);
      }
      return Ok(());
    }

    /**
     * `remove(controller, location, sequence)`: the card is taken and marked
     * dirty; a zone keeps the empty slot, any other container is spliced and
     * renumbered.
     */
    method Remove(controller: nat, location: Location, sequence: nat) returns (r: Result<CardId>)
      modifies this
      ensures var f := DuelBoard.Remove(old(Snapshot()), controller, location, sequence);
        (r.Ok? <==> f.Ok?) && (r.Err? ==> r.error == f.error)
        && (r.Ok? ==> r.value == f.value.target && Snapshot() == f.value.board)
      ensures BoardOnly()
    {
      var located := Locate(mat, controller, location);
      if located.Err? {
        return Err(located.error);
      }
      var k := located.value;
      var pile := mat[k];
      if sequence >= |pile| || pile[sequence].None? || pile[sequence].value >= |cards| {
        return Err(TYPE_ERROR);
      }
      var id := pile[sequence].value;
      if location == SZONE || location == MZONE {
        cards := cards[id := cards[id].(dirty := true)];
        mat := mat[k := pile[sequence := None]];
        return Ok(id);
      }
      mat := mat[k := pile[..sequence] + pile[sequence + 1..]];
      cards := cards[id := cards[id].(dirty := true)];
      var done := Renumber(mat[k]);
      if done.Err? {
        return Err(done.error);
      }
      return Ok(id);
    }

    /** The inner loop of `_cleanup`: each card of `pile` is made clean and snapshotted. */
    method CleanPile(pile: seq<Slot>)
      modifies this
      ensures cards == DuelHandle.CleanPile(old(cards), pile)
      ensures mat == old(mat) && BoardOnly()
    {
      var i := 0;
      while i < |pile|
        invariant i <= |pile| && mat == old(mat) && BoardOnly()
        invariant DuelHandle.CleanPile(cards, pile[i..]) == DuelHandle.CleanPile(old(cards), pile)
        decreases |pile| - i
      {
        assert pile[i..][1..] == pile[i + 1..];
        var target := pile[i];
        if target.Some? && target.value < |cards| {
          cards := cards[target.value := Clean(cards[target.value])];
        }
        i := i + 1;
      }
    }

    /** `_cleanup`: every card in a container of either player is made clean and snapshotted. */
    method Cleanup()
      modifies this
      ensures Snapshot() == DuelHandle.Cleanup(old(Snapshot()))
      ensures BoardOnly()
    {
      var n := 0;
      while n < |KEYS|
        invariant n <= |KEYS| && mat == old(mat) && BoardOnly()
        invariant CleanKeys(cards, mat, KEYS[n..]) == CleanKeys(old(cards), mat, KEYS)
        decreases |KEYS| - n
      {
        assert KEYS[n..][1..] == KEYS[n + 1..];
        if KEYS[n] in mat {
          CleanPile(mat[KEYS[n]]);
        }
        n := n + 1;
      }
    }

    // --------------------------------------------------------------- init

    /** `count` new face-down cards pushed one by one onto container `k`, numbered from 0. */
    method Deal(k: Key, count: nat)
      requires k in mat
      modifies this
      ensures Snapshot() == DuelHandle.Deal(old(Snapshot()), k, count)
      ensures BoardOnly()
    {
      ghost var b := Snapshot();
      var i := 0;
      assert b.mat[k] + Ids(|b.cards|, 0) == b.mat[k];
      while i < count
        invariant i <= count && BoardOnly()
        invariant cards == b.cards + Fresh(k.player, k.location, i)
        invariant mat == b.mat[k := b.mat[k] + Ids(|b.cards|, i)]
      {
        var card := NewCard(CardState(0, k.player, k.location, i, FACEDOWN_ATTACK));
        assert Fresh(k.player, k.location, i + 1) == Fresh(k.player, k.location, i) + [card];
        assert Ids(|b.cards|, i + 1) == Ids(|b.cards|, i) + [Some(|cards|)];
        assert b.mat[k] + Ids(|b.cards|, i + 1) == mat[k] + [Some(|cards|)];
        mat := mat[k := mat[k] + [Some(|cards|)]];
        cards := cards + [card];
        i := i + 1;
      }
    }

    /**
     * `init(msg)`: the life points and counters are set, then for each player
     * the main deck and the extra deck are dealt.
     */
    method Init(startLP: seq<int>, counts: seq<DeckCount>) returns (r: Result<()>)
      modifies this
      ensures var f := DuelHandle.Init(old(State()), startLP, counts);
        r == Done(f) && (r.Ok? ==> State() == f.value)
      ensures log == old(log)
    {
      ghost var b := Snapshot();
      lp := Somes(startLP);
      turn := Some(0);
      turnPlayer := Some(0);
      phase := Some(0);
      var p := 0;
      while p < |counts|
        invariant p <= |counts| && log == old(log)
        invariant lp == Somes(startLP) && turn == Some(0) && turnPlayer == Some(0) && phase == Some(0)
        invariant chainTarget == old(chainTarget) && hintEvent == old(hintEvent) && message == old(message)
        invariant InitFrom(Snapshot(), counts, p) == InitFrom(b, counts, 0)
        decreases |counts| - p
      {
        var main := Locate(mat, p, DECK);
        if main.Err? {
          return Err(main.error);
        }
        Deal(main.value, counts[p].mainDeck);
        var extra := Locate(mat, p, EXTRA);
        if extra.Err? {
          return Err(extra.error);
        }
        Deal(extra.value, counts[p].extraDeck);
        p := p + 1;
      }
      return Ok(());
    }
    // -------------------------------------------------------------- moves

    /** A token spawn: a new card with the message's state takes the code and is put. */
    method Spawn(code: int, c: LocInfo) returns (r: Result<()>)
      modifies this
      ensures r == Done(DuelMove.Spawn(old(Snapshot()), code, c))
      ensures r.Ok? ==> Snapshot() == DuelMove.Spawn(old(Snapshot()), code, c).value
      ensures BoardOnly()
    {
      var token := NewCard(CardState(0, c.controller, c.location, c.sequence, c.posOrSubseq));
      cards := cards + [SetCode(token, code)];
      r := Put(|cards| - 1, c.controller, c.location, c.sequence);
    }

    /** A token dies: it takes the code, when one is given, and is removed. */
    method Despawn(code: int, p: LocInfo) returns (r: Result<()>)
      modifies this
      ensures r == Done(DuelMove.Despawn(old(Snapshot()), code, p))
      ensures r.Ok? ==> Snapshot() == DuelMove.Despawn(old(Snapshot()), code, p).value
      ensures BoardOnly()
    {
      var token := At(Snapshot(), p.controller, p.location, p.sequence, None);
      if token.Err? {
        return Err(token.error);
      }
      if code != 0 {
        if token.value.None? || token.value.value >= |cards| {
          return Err(TYPE_ERROR);
        }
        var t := token.value.value;
        cards := cards[t := SetCode(cards[t], code)];
      }
      var removed := Remove(p.controller, p.location, p.sequence);
      r := Done(removed);
    }

    /** Between two containers: remove, put, then the new position and, when due, the code. */
    method Relocate(code: int, p: LocInfo, c: LocInfo) returns (r: Result<()>)
      modifies this
      ensures r == Done(DuelMove.Relocate(old(Snapshot()), code, p, c))
      ensures r.Ok? ==> Snapshot() == DuelMove.Relocate(old(Snapshot()), code, p, c).value
      ensures BoardOnly()
    {
      var target := At(Snapshot(), p.controller, p.location, p.sequence, None);
      if target.Err? {
        return Err(target.error);
      }
      var removed := Remove(p.controller, p.location, p.sequence);
      if removed.Err? {
        return Err(removed.error);
      }
      if target.value.None? || target.value.value >= |cards| {
        return Err(TYPE_ERROR);
      }
      var t := target.value.value;
      r := Put(t, c.controller, c.location, c.sequence);
      if r.Err? {
        return;
      }
      var moved := cards[t].(current := cards[t].current.(position := c.posOrSubseq));
      cards := cards[t := moved];
      if code != 0 || c.location == EXTRA {
        cards := cards[t := SetCode(moved, code)];
      }
    }

    /**
     * `ol.overlay.container.push(target)` and the target's new carrier,
     * index, location and, when `withController`, controller.
     */
    method Attach(o: CardId, t: CardId, withController: bool)
      requires o < |cards| && t < |cards|
      modifies this
      ensures cards == DuelMove.Attach(old(cards), o, t, withController)
      ensures mat == old(mat) && BoardOnly()
    {
      cards := cards[o := cards[o].(overlay := cards[o].overlay + [t])];
      var carrier := cards[o];
      var card := cards[t];
      card := card.(overlayTarget := Some(o));
      card := card.(current := card.current.(sequence := |carrier.overlay| - 1));
      card := card.(current := card.current.(location := carrier.current.location | OVERLAY));
      if withController {
        card := card.(current := card.current.(controller := carrier.current.controller));
      }
      cards := cards[t := card];
    }

    /** The card becomes the carrier's last material, taking its controller, and then its code when one is given. */
    method Mount(t: CardId, o: CardId, code: int)
      requires t < |cards| && o < |cards|
      modifies this
      ensures Snapshot() == DuelMove.Mount(old(Snapshot()), t, o, code)
      ensures BoardOnly()
    {
      Attach(o, t, true);
      if code != 0 {
        cards := cards[t := SetCode(cards[t], code)];
      }
    }

    /** Onto a carrier: the card at `p` is looked up, then mounted on the carrier at `c`. */
    method ToOverlay(code: int, p: LocInfo, c: LocInfo) returns (r: Result<()>)
      modifies this
      ensures r == Done(DuelMove.ToOverlay(old(Snapshot()), code, p, c))
      ensures r.Ok? ==> Snapshot() == DuelMove.ToOverlay(old(Snapshot()), code, p, c).value
      ensures BoardOnly()
    {
      var target := At(Snapshot(), p.controller, p.location, p.sequence, None);
      if target.Err? {
        return Err(target.error);
      }
      r := MountOn(code, target.value, p, c);
    }

    /** The carrier is looked up, then the card `t` is removed from its container and mounted. */
    method MountOn(code: int, t: Option<CardId>, p: LocInfo, c: LocInfo) returns (r: Result<()>)
      modifies this
      ensures r == Done(DuelMove.MountOn(old(Snapshot()), code, t, p, c))
      ensures r.Ok? ==> Snapshot() == DuelMove.MountOn(old(Snapshot()), code, t, p, c).value
      ensures BoardOnly()
    {
      var ol := At(Snapshot(), c.controller, c.location & 0x7F, c.sequence, None);
      if ol.Err? {
        return Err(ol.error);
      }
      r := Embark(code, t, ol.value, p);
    }

    /** The card `t` is removed from its container at `p` and mounted on the carrier `o`. */
    method Embark(code: int, t: Option<CardId>, o: Option<CardId>, p: LocInfo) returns (r: Result<()>)
      modifies this
      ensures r == Done(DuelMove.Embark(old(Snapshot()), code, t, o, p))
      ensures r.Ok? ==> Snapshot() == DuelMove.Embark(old(Snapshot()), code, t, o, p).value
      ensures BoardOnly()
    {
      var removed := Remove(p.controller, p.location, p.sequence);
      if removed.Err? {
        return Err(removed.error);
      }
      if t.None? || o.None? || t.value >= |cards| || o.value >= |cards| {
        return Err(TYPE_ERROR);
      }
      Mount(t.value, o.value, code);
      return Ok(());
    }

    /** Material `s` of carrier `o` is spliced out, the others renumbered, and it forgets its carrier and is put. */
    method Unmount(o: CardId, s: nat, c: LocInfo) returns (r: Result<()>)
      requires o < |cards|
      modifies this
      ensures r == Done(DuelMove.Unmount(old(Snapshot()), o, s, c))
      ensures r.Ok? ==> Snapshot() == DuelMove.Unmount(old(Snapshot()), o, s, c).value
      ensures BoardOnly()
    {
      var materials := cards[o].overlay;
      cards := Detach(cards, o, s);
      r := Renumber(Somes<CardId>(cards[o].overlay));
      if r.Err? {
        return;
      }
      if s >= |materials| || materials[s] >= |cards| {
        return Err(TYPE_ERROR);
      }
      var t := materials[s];
      cards := cards[t := cards[t].(overlayTarget := None)];
      r := Put(t, c.controller, c.location, c.sequence);
    }

    /** Off a carrier: the carrier is found and its material at the subsequence leaves for the destination. */
    method FromOverlay(p: LocInfo, c: LocInfo) returns (r: Result<()>)
      modifies this
      ensures r == Done(DuelMove.FromOverlay(old(Snapshot()), p, c))
      ensures r.Ok? ==> Snapshot() == DuelMove.FromOverlay(old(Snapshot()), p, c).value
      ensures BoardOnly()
    {
      var ol := At(Snapshot(), p.controller, p.location & 0x7F, p.sequence, None);
      if ol.Err? {
        return Err(ol.error);
      }
      r := Disembark(ol.value, p.posOrSubseq as nat, c);
    }

    /** The carrier must have been found before its material `s` leaves. */
    method Disembark(o: Option<CardId>, s: nat, c: LocInfo) returns (r: Result<()>)
      modifies this
      ensures r == Done(DuelMove.Disembark(old(Snapshot()), o, s, c))
      ensures r.Ok? ==> Snapshot() == DuelMove.Disembark(old(Snapshot()), o, s, c).value
      ensures BoardOnly()
    {
      if o.None? || o.value >= |cards| {
        return Err(TYPE_ERROR);
      }
      r := Unmount(o.value, s, c);
    }

    /** Material `s` of carrier `o1` moves to the end of the materials of `o2`; `o1`'s list is renumbered. */
    method Shift(o1: CardId, s: nat, o2: CardId) returns (r: Result<()>)
      requires o1 < |cards| && o2 < |cards|
      modifies this
      ensures r == Done(DuelMove.Shift(old(Snapshot()), o1, s, o2))
      ensures r.Ok? ==> Snapshot() == DuelMove.Shift(old(Snapshot()), o1, s, o2).value
      ensures BoardOnly()
    {
      var materials := cards[o1].overlay;
      if s >= |materials| || materials[s] >= |cards| {
        return Err(TYPE_ERROR);
      }
      cards := Detach(cards, o1, s);
      Attach(o2, materials[s], false);
      r := Renumber(Somes<CardId>(cards[o1].overlay));
    }

    /** From one carrier to another: the first carrier is looked up, then the material shifts onto the second. */
    method Transfer(p: LocInfo, c: LocInfo) returns (r: Result<()>)
      modifies this
      ensures r == Done(DuelMove.Transfer(old(Snapshot()), p, c))
      ensures r.Ok? ==> Snapshot() == DuelMove.Transfer(old(Snapshot()), p, c).value
      ensures BoardOnly()
    {
      var ol1 := At(Snapshot(), p.controller, p.location & 0x7F, p.sequence, None);
      if ol1.Err? {
        return Err(ol1.error);
      }
      r := ShiftOnto(ol1.value, p.posOrSubseq as nat, c);
    }

    /** The second carrier is looked up, then material `s` of the first moves onto it. */
    method ShiftOnto(o1: Option<CardId>, s: nat, c: LocInfo) returns (r: Result<()>)
      modifies this
      ensures r == Done(DuelMove.ShiftOnto(old(Snapshot()), o1, s, c))
      ensures r.Ok? ==> Snapshot() == DuelMove.ShiftOnto(old(Snapshot()), o1, s, c).value
      ensures BoardOnly()
    {
      var ol2 := At(Snapshot(), c.controller, c.location & 0x7F, c.sequence, None);
      if ol2.Err? {
        return Err(ol2.error);
      }
      r := Between(o1, s, ol2.value);
    }

    /** Both carriers must have been found before the material shifts. */
    method Between(o1: Option<CardId>, s: nat, o2: Option<CardId>) returns (r: Result<()>)
      modifies this
      ensures r == Done(DuelMove.Between(old(Snapshot()), o1, s, o2))
      ensures r.Ok? ==> Snapshot() == DuelMove.Between(old(Snapshot()), o1, s, o2).value
      ensures BoardOnly()
    {
      if o1.None? || o2.None? || o1.value >= |cards| || o2.value >= |cards| {
        return Err(TYPE_ERROR);
      }
      r := Shift(o1.value, s, o2.value);
    }

    /** `_handleMove`: the branch is chosen on the token pile (location 0) and the OVERLAY bits. */
    method Move(code: int, p: LocInfo, c: LocInfo) returns (r: Result<()>)
      modifies this
      ensures r == Done(DuelMove.Move(old(Snapshot()), code, p, c))
      ensures r.Ok? ==> Snapshot() == DuelMove.Move(old(Snapshot()), code, p, c).value
      ensures BoardOnly()
    {
      if p.location == 0 {
        r := Spawn(code, c);
      } else if c.location == 0 {
        r := Despawn(code, p);
      } else if !HasBits(p.location, OVERLAY) && !HasBits(c.location, OVERLAY) {
        r := Relocate(code, p, c);
      } else if !HasBits(p.location, OVERLAY) {
        r := ToOverlay(code, p, c);
      } else if !HasBits(c.location, OVERLAY) {
        r := FromOverlay(p, c);
      } else {
        r := Transfer(p, c);
      }
    }
    // ----------------------------------------------------------- messages

    /**
     * MSG_DRAW: the drawn cards are spliced off the top of the deck; each
     * takes its code and is put on the hand.
     */
    method Draw(player: nat, codes: seq<int>) returns (r: Result<()>)
      modifies this
      ensures r == Done(DuelHandle.Draw(old(Snapshot()), player, codes))
      ensures r.Ok? ==> Snapshot() == DuelHandle.Draw(old(Snapshot()), player, codes).value
      ensures BoardOnly()
    {
      var located := Locate(mat, player, DECK);
      if located.Err? {
        return Err(located.error);
      }
      var k := located.value;
      var pile := mat[k];
      var from := DrawStart(|pile|, |codes|);
      var drawn := pile[from..];
      mat := mat[k := pile[..from]];
      var i := 0;
      while i < |drawn|
        invariant i <= |drawn| && BoardOnly()
        invariant DrawCards(Snapshot(), player, drawn, codes, i) == DuelHandle.Draw(old(Snapshot()), player, codes)
        decreases |drawn| - i
      {
        if drawn[i].None? || drawn[i].value >= |cards| {
          return Err(TYPE_ERROR);
        }
        var target := drawn[i].value;
        cards := cards[target := SetCode(cards[target], codes[i])];
        r := Put(target, player, HAND, 0);
        if r.Err? {
          return;
        }
        i := i + 1;
      }
      return Ok(());
    }

    /** The two puts of MSG_SWAP: each card goes to the other's place. */
    method Exchange(f: CardId, s: CardId, first: Coord, second: Coord) returns (r: Result<()>)
      requires f < |cards| && s < |cards|
      modifies this
      ensures r == Done(DuelHandle.Exchange(old(Snapshot()), f, s, first, second))
      ensures r.Ok? ==> Snapshot() == DuelHandle.Exchange(old(Snapshot()), f, s, first, second).value
      ensures BoardOnly()
    {
      r := Put(f, second.controller, second.location, second.sequence);
      if r.Err? {
        return;
      }
      r := Put(s, first.controller, first.location, first.sequence);
    }

    /** MSG_SWAP: both cards are looked up, both places emptied, and each card put in the other's place. */
    method Swap(first: Coord, second: Coord) returns (r: Result<()>)
      modifies this
      ensures r == Done(DuelHandle.Swap(old(Snapshot()), first, second))
      ensures r.Ok? ==> Snapshot() == DuelHandle.Swap(old(Snapshot()), first, second).value
      ensures BoardOnly()
    {
      var fst := At(Snapshot(), first.controller, first.location, first.sequence, None);
      if fst.Err? {
        return Err(fst.error);
      }
      var snd := At(Snapshot(), second.controller, second.location, second.sequence, None);
      if snd.Err? {
        return Err(snd.error);
      }
      var r1 := Remove(first.controller, first.location, first.sequence);
      if r1.Err? {
        return Err(r1.error);
      }
      var r2 := Remove(second.controller, second.location, second.sequence);
      if r2.Err? {
        return Err(r2.error);
      }
      if fst.value.None? || snd.value.None? || fst.value.value >= |cards| || snd.value.value >= |cards| {
        return Err(TYPE_ERROR);
      }
      r := Exchange(fst.value.value, snd.value.value, first, second);
    }

    /** MSG_POS_CHANGE: the card in the current place takes the new position and is marked dirty. */
    method PosChange(controller: nat, location: Location, sequence: nat, position: Position) returns (r: Result<()>)
      modifies this
      ensures r == Done(DuelHandle.PosChange(old(Snapshot()), controller, location, sequence, position))
      ensures r.Ok? ==> Snapshot() == DuelHandle.PosChange(old(Snapshot()), controller, location, sequence, position).value
      ensures BoardOnly()
    {
      var target := At(Snapshot(), controller, location, sequence, None);
      if target.Err? {
        return Err(target.error);
      }
      if target.value.None? || target.value.value >= |cards| {
        return Err(TYPE_ERROR);
      }
      var t := target.value.value;
      var card := cards[t];
      card := card.(current := card.current.(position := position));
      card := card.(dirty := true);
      cards := cards[t := card];
      return Ok(());
    }

    /** The loop of the shuffles: the `i`-th card of `pile` takes the `i`-th code. */
    method SetEach(pile: seq<Slot>, codes: seq<int>) returns (r: Result<()>)
      modifies this
      ensures r == Done(DuelHandle.SetEach(old(cards), pile, codes, 0))
      ensures r.Ok? ==> cards == DuelHandle.SetEach(old(cards), pile, codes, 0).value
      ensures mat == old(mat) && BoardOnly()
    {
      var i := 0;
      while i < |codes|
        invariant i <= |codes| && mat == old(mat) && BoardOnly()
        invariant DuelHandle.SetEach(cards, pile, codes, i) == DuelHandle.SetEach(old(cards), pile, codes, 0)
        decreases |codes| - i
      {
        if i >= |pile| || pile[i].None? || pile[i].value >= |cards| {
          return Err(TYPE_ERROR);
        }
        cards := cards[pile[i].value := SetCode(cards[pile[i].value], codes[i])];
        i := i + 1;
      }
      return Ok(());
    }

    /** MSG_SHUFFLE_DECK: every card of the deck loses its code. */
    method ShuffleDeck(player: nat) returns (r: Result<()>)
      modifies this
      ensures r == Done(DuelHandle.ShuffleDeck(old(Snapshot()), player))
      ensures r.Ok? ==> Snapshot() == DuelHandle.ShuffleDeck(old(Snapshot()), player).value
      ensures BoardOnly()
    {
      var located := Locate(mat, player, DECK);
      if located.Err? {
        return Err(located.error);
      }
      r := SetEach(mat[located.value], Zeros(|mat[located.value]|));
    }

    /** MSG_SHUFFLE_HAND: the `i`-th card of the hand takes the `i`-th code. */
    method ShuffleHand(player: nat, codes: seq<int>) returns (r: Result<()>)
      modifies this
      ensures r == Done(DuelHandle.ShuffleHand(old(Snapshot()), player, codes))
      ensures r.Ok? ==> Snapshot() == DuelHandle.ShuffleHand(old(Snapshot()), player, codes).value
      ensures BoardOnly()
    {
      var located := Locate(mat, player, HAND);
      if located.Err? {
        return Err(located.error);
      }
      r := SetEach(mat[located.value], codes);
    }
    /**
     * The loop of the confirmations: the `i`-th revealed card, read at
     * `base - i`, takes its code when it is not 0, and its name is logged.
     */
    method Reveal(pile: seq<Slot>, base: int, codes: seq<int>) returns (r: Result<()>)
      modifies this
      ensures var f := DuelHandle.Reveal(query, old(cards), pile, base, codes, 0);
        r == Done(f) && (r.Ok? ==> cards == f.value.cards && log == old(log) + f.value.notes)
      ensures mat == old(mat) && Kept()
    {
      ghost var f := DuelHandle.Reveal(query, cards, pile, base, codes, 0);
      var i := 0;
      while i < |codes|
        invariant i <= |codes| && mat == old(mat) && Kept()
        invariant RevealedAfter(log, DuelHandle.Reveal(query, cards, pile, base, codes, i)) == RevealedAfter(old(log), f)
        decreases |codes| - i
      {
        var at := base - i;
        if at < 0 || at >= |pile| || pile[at].None? || pile[at].value >= |cards| {
          return Err(TYPE_ERROR);
        }
        var x := pile[at].value;
        ghost var shown := cards[x := Shown(cards[x], codes[i])];
        ghost var rest := DuelHandle.Reveal(query, shown, pile, base, codes, i + 1);
        assert DuelHandle.Reveal(query, cards, pile, base, codes, i) == RevealedAfter([RevealLine(query, shown[x])], rest);
        if codes[i] != 0 {
          cards := cards[x := SetCode(cards[x], codes[i])];
        } else {
          assert shown == cards;
        }
        var line := RevealLine(query, cards[x]);
        RevealedNest(log, line, rest);
        log := log + [line];
        i := i + 1;
      }
      assert log + [] == log;
      return Ok(());
    }

    /** MSG_CONFIRM_DECKTOP: the header line, then the top cards of the deck from the top down. */
    method ConfirmDeckTop(player: nat, codes: seq<int>) returns (r: Result<()>)
      modifies this
      ensures var f := DuelHandle.ConfirmDeckTop(strings, query, old(Snapshot()), player, codes);
        r == Done(f) && (r.Ok? ==> Snapshot() == f.value.0 && log == old(log) + f.value.1)
      ensures Kept()
    {
      var header := ConfirmHeader(strings, |codes|);
      if header.Err? {
        return Err(header.error);
      }
      log := log + [Logged(header.value)];
      var located := Locate(mat, player, DECK);
      if located.Err? {
        return Err(located.error);
      }
      var deck := mat[located.value];
      ghost var before := log;
      r := Reveal(deck, |deck| - 1, codes);
      if r.Ok? {
        ghost var notes := log[|before|..];
        assert log == old(log) + ([Logged(header.value)] + notes);
      }
    }

    /**
     * MSG_CONFIRM_EXTRATOP: the header line, then the face-down cards of the
     * extra deck from the topmost one down (the corrected starting index).
     */
    method ConfirmExtraTop(player: nat, codes: seq<int>) returns (r: Result<()>)
      modifies this
      ensures var f := DuelHandle.ConfirmExtraTop(strings, query, old(Snapshot()), player, codes);
        r == Done(f) && (r.Ok? ==> Snapshot() == f.value.0 && log == old(log) + f.value.1)
      ensures Kept()
    {
      var header := ConfirmHeader(strings, |codes|);
      if header.Err? {
        return Err(header.error);
      }
      log := log + [Logged(header.value)];
      var located := Locate(mat, player, EXTRA);
      if located.Err? {
        return Err(located.error);
      }
      var extra := mat[located.value];
      var poff := FirstFaceUp(cards, extra, 0);
      if poff.Err? {
        return Err(poff.error);
      }
      ghost var before := log;
      r := Reveal(extra, ExtraTopBase(|extra|, poff.value), codes);
      if r.Ok? {
        ghost var notes := log[|before|..];
        assert log == old(log) + ([Logged(header.value)] + notes);
      }
    }

    /** `listeners.onHintMessage(text)`: a rendered text is reported as a hint. */
    method Report(text: Result<string>) returns (r: Result<()>)
      modifies this
      ensures Stepped(Tell(old(State()), text), r)
    {
      if text.Err? {
        return Err(text.error);
      }
      log := log + [Hinted(text.value)];
      return Ok(());
    }

    /** MSG_HINT, by the kind of hint. */
    method Hint(kind: HintKind, data: int) returns (r: Result<()>)
      modifies this
      ensures Stepped(DuelHandle.Hint(strings, query, old(State()), kind, data), r)
    {
      match kind
      case HintEvent =>
        var text := Render(strings, data, []);
        if text.Err? {
          return Err(text.error);
        }
        hintEvent := text.value;
        return Ok(());
      case HintMessage =>
        r := Report(SystemOrDesc(strings, query, data));
      case HintOpSelected =>
        var desc := SystemOrDesc(strings, query, data);
        if desc.Err? {
          return Err(desc.error);
        }
        r := Report(Render(strings, 1510, [ArgStr(desc.value)]));
      case HintRace =>
        var name := FormatRace(strings, data);
        if name.Err? {
          return Err(name.error);
        }
        r := Report(Render(strings, 1511, [ArgStr(name.value)]));
      case HintAttrib =>
        var name := FormatAttribute(strings, data);
        if name.Err? {
          return Err(name.error);
        }
        r := Report(Render(strings, 1511, [ArgStr(name.value)]));
      case HintCode =>
        if data !in query {
          return Ok(());
        }
        r := Report(Render(strings, 1511, [ArgStr(query[data].name)]));
      case _ =>
        return Ok(());
    }

    /** MSG_NEW_TURN: `turn++` and the turn player recorded. */
    method NewTurn(player: nat)
      modifies this
      ensures State() == DuelHandle.NewTurn(old(State()), player) && log == old(log)
    {
      if turn.Some? {
        turn := Some(turn.value + 1);
      }
      turnPlayer := Some(player);
    }

    /** MSG_CHAINING: the card at the chain's place becomes the chain target. */
    method Chaining(at: Target) returns (r: Result<()>)
      modifies this
      ensures Stepped(DuelHandle.Chaining(old(State()), at), r)
    {
      var target := At(Snapshot(), at.controller, at.location, at.sequence, Some(at.subsequence));
      if target.Err? {
        return Err(target.error);
      }
      chainTarget := target.value;
      return Ok(());
    }

    /** MSG_CHAINED: the chain target, if any, is named in a hint and cleared. */
    method Chained() returns (r: Result<()>)
      modifies this
      ensures Stepped(DuelHandle.Chained(strings, query, old(State())), r)
    {
      if chainTarget.None? {
        return Ok(());
      }
      if chainTarget.value >= |cards| {
        return Err(TYPE_ERROR);
      }
      var text := Render(strings, 1609, [NameArg(query, cards[chainTarget.value].current.code)]);
      if text.Err? {
        return Err(text.error);
      }
      log := log + [Hinted(text.value)];
      chainTarget := None;
      return Ok(());
    }

    /** MSG_BECOME_TARGET: each target is looked up and a line naming it and its place is logged. */
    method BecomeTarget(targets: seq<Target>) returns (r: Result<()>)
      modifies this
      ensures var f := Targeted(strings, query, old(Snapshot()), targets, 0);
        r == Done(f) && (r.Ok? ==> log == old(log) + f.value)
      ensures cards == old(cards) && mat == old(mat) && Kept()
    {
      var b := Snapshot();
      ghost var f := Targeted(strings, query, b, targets, 0);
      var i := 0;
      while i < |targets|
        invariant i <= |targets| && cards == old(cards) && mat == old(mat) && Kept()
        invariant Preceded(log, Targeted(strings, query, b, targets, i)) == Preceded(old(log), f)
        decreases |targets| - i
      {
        var c := targets[i];
        var target := At(b, c.controller, c.location, c.sequence, Some(c.subsequence));
        if target.Err? {
          return Err(target.error);
        }
        if target.value.None? || target.value.value >= |b.cards| {
          return Err(TYPE_ERROR);
        }
        var line := TargetLine(strings, query, b, c, target.value.value);
        if line.Err? {
          return Err(line.error);
        }
        ghost var rest := Targeted(strings, query, b, targets, i + 1);
        assert Targeted(strings, query, b, targets, i) == Preceded([line.value], rest);
        PrecededNest(log, line.value, rest);
        log := log + [line.value];
        i := i + 1;
      }
      assert log + [] == log;
      return Ok(());
    }
    // ------------------------------------------------------------- handle

    /** The messages that only change the board. */
    method BoardMessage(msg: Message) returns (r: Result<()>)
      requires msg.MsgDraw? || msg.MsgSwap? || msg.MsgMove? || msg.MsgPosChange? || msg.MsgShuffleDeck? || msg.MsgShuffleHand?
      modifies this
      ensures Stepped(DuelHandle.Dispatch(strings, query, old(State()), msg), r)
    {
      ghost var f := DispatchBoard(strings, query, State(), msg);
      match msg
      case MsgDraw(player, codes) =>
        r := Draw(player, codes);
      case MsgSwap(first, second) =>
        r := Swap(first, second);
      case MsgMove(code, previous, current) =>
        r := Move(code, previous, current);
      case MsgPosChange(_, controller, location, sequence, _, position) =>
        r := PosChange(controller, location, sequence, position);
      case MsgShuffleDeck(player) =>
        r := ShuffleDeck(player);
      case MsgShuffleHand(player, codes) =>
        r := ShuffleHand(player, codes);
    }

    /** The two confirmations, which change the board and log. */
    method NotesMessage(msg: Message) returns (r: Result<()>)
      requires msg.MsgConfirmDeckTop? || msg.MsgConfirmExtraTop?
      modifies this
      ensures Stepped(DuelHandle.Dispatch(strings, query, old(State()), msg), r)
    {
      ghost var f := DispatchNotes(strings, query, State(), msg);
      if msg.MsgConfirmDeckTop? {
        r := ConfirmDeckTop(msg.player, msg.cards);
      } else {
        r := ConfirmExtraTop(msg.player, msg.cards);
      }
    }

    /** The big switch of `handle`, by the message's type. */
    method Dispatch(msg: Message) returns (r: Result<()>)
      modifies this
      ensures Stepped(DuelHandle.Dispatch(strings, query, old(State()), msg), r)
    {
      if msg.MsgDraw? || msg.MsgSwap? || msg.MsgMove? || msg.MsgPosChange? || msg.MsgShuffleDeck? || msg.MsgShuffleHand? {
        r := BoardMessage(msg);
        return;
      }
      if msg.MsgConfirmDeckTop? || msg.MsgConfirmExtraTop? {
        r := NotesMessage(msg);
        return;
      }
      if msg.MsgSet? || msg.MsgSummoning? || msg.MsgSummoned? {
        r := Report(Announcement(strings, query, msg));
        return;
      }
      if msg.MsgHint? {
        r := Hint(msg.hint, msg.data);
        return;
      }
      if msg.MsgStart? || msg.MsgNewTurn? {
        r := TurnMessage(msg);
        return;
      }
      if msg.MsgChaining? || msg.MsgChained? || msg.MsgBecomeTarget? {
        r := ChainMessage(msg);
        return;
      }
      r := Ok(());
    }

    /** The cases of `handle` that start the duel or a turn. */
    method TurnMessage(msg: Message) returns (r: Result<()>)
      requires msg.MsgStart? || msg.MsgNewTurn?
      modifies this
      ensures Stepped(DuelHandle.Dispatch(strings, query, old(State()), msg), r)
    {
      if msg.MsgStart? {
        r := Init(msg.startLP, msg.deckCount);
        assert old(log) + [] == old(log);
      } else {
        NewTurn(msg.player);
        r := Ok(());
      }
    }

    /** The cases of `handle` about the chain. */
    method ChainMessage(msg: Message) returns (r: Result<()>)
      requires msg.MsgChaining? || msg.MsgChained? || msg.MsgBecomeTarget?
      modifies this
      ensures Stepped(DuelHandle.Dispatch(strings, query, old(State()), msg), r)
    {
      ghost var f := DispatchChain(strings, query, State(), msg);
      match msg
      case MsgChaining(_, at) =>
        r := Chaining(at);
      case MsgChained =>
        r := Chained();
      case MsgBecomeTarget(targets) =>
        r := BecomeTarget(targets);
    }

    /**
     * `handle(msg)`: the cleanup, the message recorded, then the switch. The
     * object makes the step the value model describes and, from a valid
     * state, stays valid (a MSG_START needing decks that are still empty).
     */
    method Handle(msg: Message) returns (r: Result<()>)
      modifies this
      ensures Stepped(DuelHandle.Handle(strings, query, old(State()), msg), r)
      ensures old(Valid()) && (msg.MsgStart? ==> EmptyDecks(old(Snapshot()), msg.deckCount)) && r.Ok? ==> Valid()
    {
      ghost var d := State();
      Cleanup();
      message := Some(msg);
      r := Dispatch(msg);
      if DuelValid(d) && (msg.MsgStart? ==> EmptyDecks(d.board, msg.deckCount)) {
        HandleKeepsValid(strings, query, d, msg);
      }
    }
  }
}
