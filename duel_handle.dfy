/**
 * `DuelState.handle`: the duel client's reaction to one engine message.
 * Every message first clears the dirty flags of the cards on the mat and
 * snapshots their state; then the message moves, reveals or renames cards,
 * advances the turn, or produces the texts the client reports through its
 * `onLog` and `onHintMessage` listeners.
 */
module DuelHandle {
  import opened Wrappers
  import opened Protocol
  import opened Common
  import opened JsText
  import opened DuelText
  import opened DuelBoard
  import opened DuelMove

  /** A text reported through `onLog` or `onHintMessage`. */
  datatype Note = Logged(text: string) | Hinted(text: string)

  /**
   * The fields of `DuelState` that `handle` changes. `None` stands for the
   * `NaN` the counters start with; `chainTarget` is `currentChainTarget`,
   * `hintEvent` is `hints.event` and `message` the last message handled.
   */
  datatype Duel = Duel(board: Board, turn: Option<int>, turnPlayer: Option<int>, phase: Option<int>,
                       lp: seq<Option<int>>, chainTarget: Option<CardId>, hintEvent: string, message: Option<Message>)

  /** A new `DuelState`: an empty mat, `NaN` counters, no chain target, no hint event. */
  const FRESH: Duel := Duel(EMPTY_BOARD, None, None, None, [None, None], None, "", None)

  /** The duel after a message, and the texts reported while handling it, in order. */
  datatype Step = Step(duel: Duel, notes: seq<Note>)

  // ------------------------------------------------------------- cleanup

  /** `target.dirty = false; target.snapshot()`. */
  function Clean(c: Card): Card
  {
    c.(dirty := false, previous := c.current)
  }

  /** `if (target) { ... }`: an empty slot is skipped. */
  function CleanSlot(cards: seq<Card>, s: Slot): (r: seq<Card>)
    ensures |r| == |cards|
  {
    if s.Some? && s.value < |cards| then cards[s.value := Clean(cards[s.value])] else cards
  }

  function CleanPile(cards: seq<Card>, pile: seq<Slot>): (r: seq<Card>)
    ensures |r| == |cards|
    decreases |pile|
  {
    if pile == [] then cards else CleanPile(CleanSlot(cards, pile[0]), pile[1..])
  }

  /** The containers in the order `_cleanup` visits them: player 0, then player 1, each by ascending location. */
  const KEYS: seq<Key> := [
    Key(0, DECK), Key(0, HAND), Key(0, MZONE), Key(0, SZONE), Key(0, GRAVE), Key(0, REMOVED), Key(0, EXTRA),
    Key(1, DECK), Key(1, HAND), Key(1, MZONE), Key(1, SZONE), Key(1, GRAVE), Key(1, REMOVED), Key(1, EXTRA)]

  function CleanKeys(cards: seq<Card>, mat: Mat, keys: seq<Key>): (r: seq<Card>)
    ensures |r| == |cards|
    decreases |keys|
  {
    if keys == [] then cards
    else CleanKeys(if keys[0] in mat then CleanPile(cards, mat[keys[0]]) else cards, mat, keys[1..])
  }

  /** `_cleanup`: every card in a container of the mat is cleaned. */
  function Cleanup(b: Board): Board
  {
    Board(CleanKeys(b.cards, b.mat, KEYS), b.mat)
  }

  /** Cleaning a pile cleans exactly the cards it holds. */
  lemma {:induction false} CleanPileMeaning(cards: seq<Card>, pile: seq<Slot>)
    ensures forall x | 0 <= x < |cards| :: CleanPile(cards, pile)[x] == if Some(x) in pile then Clean(cards[x]) else cards[x]
    decreases |pile|
  {
    if pile != [] {
      var next := CleanSlot(cards, pile[0]);
      CleanPileMeaning(next, pile[1..]);
      forall x | 0 <= x < |cards|
        ensures CleanPile(cards, pile)[x] == if Some(x) in pile then Clean(cards[x]) else cards[x]
      {
        assert Some(x) in pile <==> pile[0] == Some(x) || Some(x) in pile[1..] by {
          assert pile == [pile[0]] + pile[1..];
        }
      }
    }
  }

  /** Some container, among those listed that the mat has, holds the card. */
  ghost predicate InSome(mat: Mat, keys: seq<Key>, x: CardId)
  {
    exists j | 0 <= j < |keys| :: keys[j] in mat && Some(x) in mat[keys[j]]
  }

  lemma {:induction false} CleanKeysMeaning(cards: seq<Card>, mat: Mat, keys: seq<Key>)
    ensures forall x | 0 <= x < |cards| :: CleanKeys(cards, mat, keys)[x] == if InSome(mat, keys, x) then Clean(cards[x]) else cards[x]
    decreases |keys|
  {
    if keys != [] {
      var next := if keys[0] in mat then CleanPile(cards, mat[keys[0]]) else cards;
      if keys[0] in mat {
        CleanPileMeaning(cards, mat[keys[0]]);
      }
      CleanKeysMeaning(next, mat, keys[1..]);
      forall x | 0 <= x < |cards|
        ensures CleanKeys(cards, mat, keys)[x] == if InSome(mat, keys, x) then Clean(cards[x]) else cards[x]
      {
        if InSome(mat, keys[1..], x) {
          var j :| 0 <= j < |keys[1..]| && keys[1..][j] in mat && Some(x) in mat[keys[1..][j]];
          assert keys[j + 1] == keys[1..][j];
        }
        if InSome(mat, keys, x) && !(keys[0] in mat && Some(x) in mat[keys[0]]) {
          var j :| 0 <= j < |keys| && keys[j] in mat && Some(x) in mat[keys[j]];
          assert keys[1..][j - 1] == keys[j];
        }
      }
    }
  }

  /** The fourteen containers of a well-shaped mat are all visited. */
  lemma KeysCover(k: Key)
    requires k.player < 2 && k.location in SIDE_LOCATIONS
    ensures exists j | 0 <= j < |KEYS| :: KEYS[j] == k
  {
    assert k in KEYS;
  }

  /**
   * `_cleanup` clears the dirty flag and snapshots the state of exactly the
   * cards that sit in a container; materials and removed tokens are left as
   * they are. The board stays valid.
   */
  lemma CleanupMeaning(b: Board)
    requires Valid(b)
    ensures Cleanup(b).mat == b.mat && |Cleanup(b).cards| == |b.cards| && Valid(Cleanup(b))
    ensures forall x | 0 <= x < |b.cards| :: Cleanup(b).cards[x] == if Seated(b, x) then Clean(b.cards[x]) else b.cards[x]
  {
    CleanKeysMeaning(b.cards, b.mat, KEYS);
    forall x | 0 <= x < |b.cards|
      ensures InSome(b.mat, KEYS, x) <==> Seated(b, x)
    {
      if InSome(b.mat, KEYS, x) {
        var j :| 0 <= j < |KEYS| && KEYS[j] in b.mat && Some(x) in b.mat[KEYS[j]];
        InPileSeated(b, KEYS[j], x);
      }
      if Seated(b, x) {
        var k := Key(b.cards[x].current.controller, b.cards[x].current.location);
        ShapedKeys(b.mat, k);
        KeysCover(k);
        var j :| 0 <= j < |KEYS| && KEYS[j] == k;
        assert b.mat[k][b.cards[x].current.sequence] == Some(x);
      }
    }
    KeptValid(b, Cleanup(b).cards);
  }

  /** A second `_cleanup` changes nothing. */
  lemma CleanupIdempotent(b: Board)
    requires Valid(b)
    ensures Cleanup(Cleanup(b)) == Cleanup(b)
  {
    CleanupMeaning(b);
    var c := Cleanup(b);
    CleanupMeaning(c);
    forall x | 0 <= x < |b.cards|
      ensures Cleanup(c).cards[x] == c.cards[x]
    {
      assert Seated(c, x) <==> Seated(b, x);
    }
    assert Cleanup(c).cards == c.cards;
  }

  // ---------------------------------------------------------------- init

  /** The cards `init` creates for one container: code 0, face-down attack, sequence `i`, not dirty. */
  function Fresh(player: nat, location: Location, count: nat): (r: seq<Card>)
    ensures |r| == count
  {
    seq(count, i requires 0 <= i < count => NewCard(CardState(0, player, location, i, FACEDOWN_ATTACK)))
  }

  /** The slots of `count` new cards numbered from `start`. */
  function Ids(start: nat, count: nat): (r: seq<Slot>)
    ensures |r| == count && forall i | 0 <= i < count :: r[i] == Some(start + i)
  {
    seq(count, i requires 0 <= i < count => Some(start + i))
  }

  /** `count` new cards pushed onto container `k`. */
  function Deal(b: Board, k: Key, count: nat): (r: Board)
    requires k in b.mat
  {
    Board(b.cards + Fresh(k.player, k.location, count), b.mat[k := b.mat[k] + Ids(|b.cards|, count)])
  }

  /** The players' decks from `p` on, main deck then extra deck; a third player has no containers. */
  function InitFrom(b: Board, counts: seq<DeckCount>, p: nat): Result<Board>
    decreases |counts| - p
  {
    if p >= |counts| then Ok(b)
    else match Locate(b.mat, p, DECK)
      case Err(e) => Err(e)
      case Ok(kd) =>
        var b1 := Deal(b, kd, counts[p].mainDeck);
        match Locate(b1.mat, p, EXTRA)
        case Err(e) => Err(e)
        case Ok(ke) => InitFrom(Deal(b1, ke, counts[p].extraDeck), counts, p + 1)
  }

  /** `init(msg)`: the life points and counters are set and the decks dealt. */
  function Init(d: Duel, startLP: seq<int>, counts: seq<DeckCount>): Result<Duel>
  {
    match InitFrom(d.board, counts, 0)
    case Err(e) => Err(e)
    case Ok(b) => Ok(d.(board := b, lp := Somes(startLP), turn := Some(0), turnPlayer := Some(0), phase := Some(0)))
  }

  /** Container `location` of player `q` holds exactly `count` new cards, the `i`-th numbered `i`. */
  ghost predicate Dealt(b: Board, q: nat, location: Location, count: nat)
  {
    var k := Key(q, location);
    k in b.mat && |b.mat[k]| == count
    && forall i | 0 <= i < count :: b.mat[k][i].Some? && b.mat[k][i].value < |b.cards|
         && b.cards[b.mat[k][i].value] == NewCard(CardState(0, q, location, i, FACEDOWN_ATTACK))
  }

  /** Dealing into an empty container keeps the board valid. */
  lemma DealValid(b: Board, k: Key, count: nat)
    requires Valid(b) && k in b.mat && b.mat[k] == []
    ensures var r := Deal(b, k, count);
      Valid(r) && Dealt(r, k.player, k.location, count) && r.cards[..|b.cards|] == b.cards
  {
    var r := Deal(b, k, count);
    ShapedKeys(b.mat, k);
    forall k2, i | k2 in r.mat && 0 <= i < |r.mat[k2]|
      ensures SlotOk(r, k2, i)
    {
      if k2 != k {
        assert SlotOk(b, k2, i);
      }
    }
    forall c, j | 0 <= c < |r.cards| && 0 <= j < |r.cards[c].overlay|
      ensures MaterialOk(r, c, j)
    {
      assert c < |b.cards|;
      assert MaterialOk(b, c, j);
    }
    assert r.cards[..|b.cards|] == b.cards;
  }

  lemma DealtKept(b: Board, r: Board, q: nat, location: Location, count: nat)
    requires Dealt(b, q, location, count) && Key(q, location) in r.mat && r.mat[Key(q, location)] == b.mat[Key(q, location)]
    requires |b.cards| <= |r.cards| && r.cards[..|b.cards|] == b.cards
    ensures Dealt(r, q, location, count)
  {
    var k := Key(q, location);
    forall i | 0 <= i < count
      ensures r.cards[r.mat[k][i].value] == b.cards[b.mat[k][i].value]
    {
      assert r.cards[..|b.cards|][b.mat[k][i].value] == b.cards[b.mat[k][i].value];
    }
  }

  /** The containers `InitFrom` deals into from player `p` on. */
  predicate Dealing(k: Key, counts: seq<DeckCount>, p: nat)
  {
    p <= k.player < |counts| && (k.location == DECK || k.location == EXTRA)
  }

  /**
   * For at most two players whose decks are empty, `init` deals each player
   * the numbers of new face-down cards the message gives, keeps every other
   * container and card, and leaves a valid board.
   */
  lemma {:induction false} InitFromEffect(b: Board, counts: seq<DeckCount>, p: nat)
    requires Valid(b) && p <= |counts| <= 2
    requires forall q | p <= q < |counts| :: Key(q, DECK) in b.mat && b.mat[Key(q, DECK)] == [] && Key(q, EXTRA) in b.mat && b.mat[Key(q, EXTRA)] == []
    ensures InitFrom(b, counts, p).Ok?
    ensures var r := InitFrom(b, counts, p).value;
      Valid(r) && |b.cards| <= |r.cards| && r.cards[..|b.cards|] == b.cards
      && (forall k | k in b.mat && !Dealing(k, counts, p) :: k in r.mat && r.mat[k] == b.mat[k])
      && (forall q | p <= q < |counts| :: Dealt(r, q, DECK, counts[q].mainDeck) && Dealt(r, q, EXTRA, counts[q].extraDeck))
    decreases |counts| - p
  {
    if p < |counts| {
      var b2 := InitStep(b, counts, p);
      forall q | p + 1 <= q < |counts|
        ensures Key(q, DECK) in b2.mat && b2.mat[Key(q, DECK)] == [] && Key(q, EXTRA) in b2.mat && b2.mat[Key(q, EXTRA)] == []
      {
        assert Key(q, DECK) != Key(p, DECK) && Key(q, DECK) != Key(p, EXTRA);
        assert Key(q, EXTRA) != Key(p, DECK) && Key(q, EXTRA) != Key(p, EXTRA);
      }
      InitFromEffect(b2, counts, p + 1);
      var r := InitFrom(b2, counts, p + 1).value;
      forall k | k in b.mat && !Dealing(k, counts, p)
        ensures k in r.mat && r.mat[k] == b.mat[k]
      {
        assert k != Key(p, DECK) && k != Key(p, EXTRA);
        assert !Dealing(k, counts, p + 1);
      }
      assert r.cards[..|b.cards|] == b.cards by {
        assert r.cards[..|b2.cards|][..|b.cards|] == r.cards[..|b.cards|];
      }
      forall q | p <= q < |counts|
        ensures Dealt(r, q, DECK, counts[q].mainDeck) && Dealt(r, q, EXTRA, counts[q].extraDeck)
      {
        if q == p {
          DealtKept(b2, r, p, DECK, counts[p].mainDeck);
          DealtKept(b2, r, p, EXTRA, counts[p].extraDeck);
        }
      }
    }
  }

  /** One player's turn of `init`: the main deck, then the extra deck, dealt into empty containers. */
  lemma InitStep(b: Board, counts: seq<DeckCount>, p: nat) returns (b2: Board)
    requires Valid(b) && p < |counts| <= 2
    requires forall q | p <= q < |counts| :: Key(q, DECK) in b.mat && b.mat[Key(q, DECK)] == [] && Key(q, EXTRA) in b.mat && b.mat[Key(q, EXTRA)] == []
    ensures InitFrom(b, counts, p) == InitFrom(b2, counts, p + 1)
    ensures Valid(b2) && |b.cards| <= |b2.cards| && b2.cards[..|b.cards|] == b.cards
    ensures forall k | k in b.mat && k != Key(p, DECK) && k != Key(p, EXTRA) :: k in b2.mat && b2.mat[k] == b.mat[k]
    ensures Dealt(b2, p, DECK, counts[p].mainDeck) && Dealt(b2, p, EXTRA, counts[p].extraDeck)
  {
    var kd := Key(p, DECK);
    var ke := Key(p, EXTRA);
    ShapedKeys(b.mat, kd);
    var b1 := Deal(b, kd, counts[p].mainDeck);
    DealValid(b, kd, counts[p].mainDeck);
    b2 := Deal(b1, ke, counts[p].extraDeck);
    DealValid(b1, ke, counts[p].extraDeck);
    assert b2.cards[..|b.cards|] == b.cards by {
      assert b2.cards[..|b1.cards|][..|b.cards|] == b2.cards[..|b.cards|];
    }
    DealtKept(b1, b2, p, DECK, counts[p].mainDeck);
  }

  /** A message for a third player makes `init` throw: there are containers for players 0 and 1 only. */
  lemma {:induction false} InitFromThirdPlayer(b: Board, counts: seq<DeckCount>, p: nat)
    requires Shaped(b.mat) && p <= 2 < |counts|
    ensures InitFrom(b, counts, p).Err?
    decreases 2 - p
  {
    if p < 2 {
      var kd := Key(p, DECK);
      var ke := Key(p, EXTRA);
      ShapedKeys(b.mat, kd);
      ShapedKeys(b.mat, ke);
      var b1 := Deal(b, kd, counts[p].mainDeck);
      var b2 := Deal(b1, ke, counts[p].extraDeck);
      assert b2.mat.Keys == b.mat.Keys;
      InitFromThirdPlayer(b2, counts, p + 1);
    }
  }

  // ---------------------------------------------------------------- draw

  /**
   * `container.splice(container.length - n, n)` starts at `length - n`, or,
   * when that is negative, at `2 * length - n` clamped to 0, and removes to
   * the end.
   */
  function DrawStart(len: nat, n: nat): (s: nat)
    ensures s <= len && len - s <= n
    ensures n <= len ==> len - s == n
  {
    if n <= len then len - n else if 2 * len >= n then 2 * len - n else 0
  }

  /** A drawn card: its code set, then put on top of the hand. */
  function Drawn(c: Card, player: nat, code: int, sequence: nat): Card
  {
    WithSequence(Placed(SetCode(c, code), player, HAND), sequence)
  }

  /** The loop of MSG_DRAW from card `i` on: `target.set(msg.cards[i])`, then `put(target, controller, HAND, 0)`. */
  function DrawCards(b: Board, player: nat, drawn: seq<Slot>, codes: seq<int>, i: nat): Result<Board>
    requires |drawn| <= |codes|
    decreases |drawn| - i
  {
    if i >= |drawn| then Ok(b)
    else if drawn[i].None? || drawn[i].value >= |b.cards| then Err(TYPE_ERROR)
    else
      var x := drawn[i].value;
      match Put(Board(b.cards[x := SetCode(b.cards[x], codes[i])], b.mat), x, player, HAND, 0)
      case Err(e) => Err(e)
      case Ok(b2) => DrawCards(b2, player, drawn, codes, i + 1)
  }

  /** MSG_DRAW: the cards spliced off the top of the deck go to the hand with the codes of the message. */
  function Draw(b: Board, player: nat, codes: seq<int>): Result<Board>
  {
    match Locate(b.mat, player, DECK)
    case Err(e) => Err(e)
    case Ok(k) =>
      var pile := b.mat[k];
      var s := DrawStart(|pile|, |codes|);
      DrawCards(Board(b.cards, b.mat[k := pile[..s]]), player, pile[s..], codes, 0)
  }

  /** Cutting a container that has no holes leaves a valid board in which the cut-off cards sit nowhere. */
  lemma TruncateValid(b: Board, k: Key, s: nat)
    requires Valid(b) && k in b.mat && s <= |b.mat[k]| && !IsZone(k.location)
    ensures var b0 := Board(b.cards, b.mat[k := b.mat[k][..s]]); var cut := b.mat[k][s..];
      Valid(b0)
      && (forall j | 0 <= j < |cut| :: cut[j].Some? && cut[j].value < |b.cards| && !Seated(b0, cut[j].value)
            && b.cards[cut[j].value].overlayTarget.None?)
      && (forall j, j' | 0 <= j < j' < |cut| :: cut[j] != cut[j'])
  {
    var pile := b.mat[k];
    var b0 := Board(b.cards, b.mat[k := pile[..s]]);
    var cut := pile[s..];
    PileDistinct(b, k);
    forall k2, i | k2 in b0.mat && 0 <= i < |b0.mat[k2]|
      ensures SlotOk(b0, k2, i)
    {
      assert SlotOk(b, k2, i);
    }
    forall c, j | 0 <= c < |b0.cards| && 0 <= j < |b0.cards[c].overlay|
      ensures MaterialOk(b0, c, j)
    {
      assert MaterialOk(b, c, j);
    }
    forall j | 0 <= j < |cut|
      ensures cut[j].Some? && cut[j].value < |b.cards| && !Seated(b0, cut[j].value) && b.cards[cut[j].value].overlayTarget.None?
    {
      assert SlotOk(b, k, s + j);
      Occupant(b, k, s + j);
    }
  }

  /** One drawn card: a loose card, renamed and put on top of the hand, which stays valid. */
  lemma DrawStep(b: Board, player: nat, x: CardId, code: int)
    requires Valid(b) && player < 2 && x < |b.cards| && !Seated(b, x) && b.cards[x].overlayTarget.None?
    ensures var h := Key(player, HAND); var b1 := Board(b.cards[x := SetCode(b.cards[x], code)], b.mat);
      h in b.mat
      && Put(b1, x, player, HAND, 0) == Ok(Board(b.cards[x := Drawn(b.cards[x], player, code, |b.mat[h]|)], b.mat[h := b.mat[h] + [Some(x)]]))
      && Valid(Put(b1, x, player, HAND, 0).value)
  {
    var h := Key(player, HAND);
    ShapedKeys(b.mat, h);
    var b1 := Board(b.cards[x := SetCode(b.cards[x], code)], b.mat);
    KeptValid(b, b1.cards);
    assert Seated(b1, x) == Seated(b, x);
    if Some(x) in b1.mat[h] {
      InPileSeated(b1, h, x);
    }
    PlainLocation(HAND);
    assert Free(b1, x, Key(player, HAND & 0x7F));
    PutOnTop(b1, x, player, HAND, 0);
    PutKeepsValid(b1, x, player, HAND, 0);
    var c := Drawn(b.cards[x], player, code, |b.mat[h]|);
    assert b1.cards[x := WithSequence(Placed(b1.cards[x], player, HAND), |b.mat[h]|)] == b.cards[x := c];
  }

  /** What the draw loop from card `i` on did to `b` to give `r`, apart from validity. */
  ghost predicate DrewFrom(b: Board, r: Board, player: nat, drawn: seq<Slot>, codes: seq<int>, i: nat)
    requires |drawn| <= |codes| && i <= |drawn|
  {
    var h := Key(player, HAND);
    |r.cards| == |b.cards| && h in b.mat && r.mat == b.mat[h := b.mat[h] + drawn[i..]]
    && (forall y | 0 <= y < |b.cards| && Some(y) !in drawn[i..] :: r.cards[y] == b.cards[y])
    && (forall j | i <= j < |drawn| ::
          drawn[j].Some? && drawn[j].value < |b.cards|
          && r.cards[drawn[j].value] == Drawn(b.cards[drawn[j].value], player, codes[j], |b.mat[h]| + j - i))
  }

  /** One turn of the draw loop followed by the rest of it. */
  lemma DrewCompose(b: Board, b2: Board, r: Board, player: nat, drawn: seq<Slot>, codes: seq<int>, i: nat)
    requires |drawn| <= |codes| && i < |drawn| && drawn[i].Some? && drawn[i].value < |b.cards|
    requires var h := Key(player, HAND); var x := drawn[i].value;
      h in b.mat && b2 == Board(b.cards[x := Drawn(b.cards[x], player, codes[i], |b.mat[h]|)], b.mat[h := b.mat[h] + [Some(x)]])
    requires drawn[i] !in drawn[i + 1..] && DrewFrom(b2, r, player, drawn, codes, i + 1)
    ensures DrewFrom(b, r, player, drawn, codes, i)
  {
    var h := Key(player, HAND);
    var x := drawn[i].value;
    assert drawn[i..] == [drawn[i]] + drawn[i + 1..];
    assert r.mat == b.mat[h := b.mat[h] + drawn[i..]] by {
      assert b.mat[h] + [Some(x)] + drawn[i + 1..] == b.mat[h] + drawn[i..];
    }
    forall y | 0 <= y < |b.cards| && Some(y) !in drawn[i..]
      ensures r.cards[y] == b.cards[y]
    {
      assert Some(y) !in drawn[i + 1..];
    }
    forall j | i <= j < |drawn|
      ensures drawn[j].Some? && drawn[j].value < |b.cards|
      ensures r.cards[drawn[j].value] == Drawn(b.cards[drawn[j].value], player, codes[j], |b.mat[h]| + j - i)
    {
      if j == i {
        assert Some(x) !in drawn[i + 1..];
      } else {
        assert drawn[j] != Some(x);
      }
    }
  }

  /** The draw loop puts the drawn cards on top of the hand in order, each with its code, and touches nothing else. */
  lemma {:induction false} DrawCardsEffect(b: Board, player: nat, drawn: seq<Slot>, codes: seq<int>, i: nat)
    requires Valid(b) && player < 2 && |drawn| <= |codes| && i <= |drawn|
    requires forall j | i <= j < |drawn| ::
      drawn[j].Some? && drawn[j].value < |b.cards| && !Seated(b, drawn[j].value) && b.cards[drawn[j].value].overlayTarget.None?
    requires forall j, j' | i <= j < j' < |drawn| :: drawn[j] != drawn[j']
    ensures DrawCards(b, player, drawn, codes, i).Ok?
    ensures Valid(DrawCards(b, player, drawn, codes, i).value)
    ensures DrewFrom(b, DrawCards(b, player, drawn, codes, i).value, player, drawn, codes, i)
    decreases |drawn| - i
  {
    var h := Key(player, HAND);
    ShapedKeys(b.mat, h);
    if i < |drawn| {
      var x := drawn[i].value;
      DrawStep(b, player, x, codes[i]);
      var b2 := Board(b.cards[x := Drawn(b.cards[x], player, codes[i], |b.mat[h]|)], b.mat[h := b.mat[h] + [Some(x)]]);
      forall j | i < j < |drawn|
        ensures !Seated(b2, drawn[j].value)
      {
        assert b2.cards[drawn[j].value] == b.cards[drawn[j].value];
      }
      assert DrawCards(b, player, drawn, codes, i) == DrawCards(b2, player, drawn, codes, i + 1);
      DrawCardsEffect(b2, player, drawn, codes, i + 1);
      assert drawn[i] !in drawn[i + 1..];
      DrewCompose(b, b2, DrawCards(b2, player, drawn, codes, i + 1).value, player, drawn, codes, i);
    } else {
      assert b.mat[h] + drawn[i..] == b.mat[h];
      assert b.mat[h := b.mat[h]] == b.mat;
    }
  }

  /**
   * MSG_DRAW fails only for a player without containers. Otherwise the cards
   * from the splice start to the top of the deck leave the deck and go, in
   * order, on top of the hand, each renamed to its code in the message; when
   * the deck holds enough cards these are exactly its top `|codes|` cards.
   * Nothing else changes and the board stays valid.
   */
  lemma DrawEffect(b: Board, player: nat, codes: seq<int>)
    requires Valid(b)
    ensures Draw(b, player, codes).Ok? <==> player < 2
    ensures Draw(b, player, codes).Ok? ==>
      var d := Key(player, DECK); var h := Key(player, HAND);
      d in b.mat && h in b.mat &&
      var deck := b.mat[d]; var s := DrawStart(|deck|, |codes|); var r := Draw(b, player, codes).value;
      Valid(r) && |r.cards| == |b.cards| && r.mat == b.mat[d := deck[..s]][h := b.mat[h] + deck[s..]]
      && (|codes| <= |deck| ==> |deck[s..]| == |codes|)
      && (forall y | 0 <= y < |b.cards| && Some(y) !in deck[s..] :: r.cards[y] == b.cards[y])
      && (forall j | 0 <= j < |deck| - s :: deck[s + j].Some? && deck[s + j].value < |b.cards|
            && r.cards[deck[s + j].value] == Drawn(b.cards[deck[s + j].value], player, codes[j], |b.mat[h]| + j))
  {
    LocateMeaning(b.mat, player, DECK);
    if player < 2 {
      var d := Key(player, DECK);
      var h := Key(player, HAND);
      ShapedKeys(b.mat, d);
      ShapedKeys(b.mat, h);
      var deck := b.mat[d];
      var s := DrawStart(|deck|, |codes|);
      TruncateValid(b, d, s);
      var b0 := Board(b.cards, b.mat[d := deck[..s]]);
      DrawCardsEffect(b0, player, deck[s..], codes, 0);
      assert deck[s..][0..] == deck[s..];
      forall j | 0 <= j < |deck| - s
        ensures deck[s + j] == deck[s..][j]
      {
      }
    }
  }

  // ---------------------------------------------------------------- swap

  /** The two `put`s of MSG_SWAP: the first card to the second place, then the second card to the first. */
  function Exchange(b: Board, f: CardId, s: CardId, first: Coord, second: Coord): Result<Board>
    requires f < |b.cards| && s < |b.cards|
  {
    match Put(b, f, second.controller, second.location, second.sequence)
    case Err(e) => Err(e)
    case Ok(b1) => Put(b1, s, first.controller, first.location, first.sequence)
  }

  /** MSG_SWAP: both cards are looked up, both places emptied, and each card put in the other's place. */
  function Swap(b: Board, first: Coord, second: Coord): Result<Board>
  {
    match At(b, first.controller, first.location, first.sequence, None)
    case Err(e) => Err(e)
    case Ok(fst) =>
      match At(b, second.controller, second.location, second.sequence, None)
      case Err(e) => Err(e)
      case Ok(snd) =>
        match Remove(b, first.controller, first.location, first.sequence)
        case Err(e) => Err(e)
        case Ok(r1) =>
          match Remove(r1.board, second.controller, second.location, second.sequence)
          case Err(e) => Err(e)
          case Ok(r2) =>
            if fst.None? || snd.None? || fst.value >= |r2.board.cards| || snd.value >= |r2.board.cards| then Err(TYPE_ERROR)
            else Exchange(r2.board, fst.value, snd.value, first, second)
  }

  /** The card `remove` takes is the one seated in the slot it names. */
  lemma RemoveSeated(b: Board, controller: nat, location: Location, sequence: nat)
    requires Valid(b) && Remove(b, controller, location, sequence).Ok?
    ensures var k := Key(controller, location & 0x7F); var x := Remove(b, controller, location, sequence).value.target;
      k in b.mat && sequence < |b.mat[k]| && b.mat[k][sequence] == Some(x) && Seated(b, x)
      && Key(b.cards[x].current.controller, b.cards[x].current.location) == k
  {
    var k := Key(controller, location & 0x7F);
    Occupant(b, k, sequence);
  }

  /** The slot holds a card and names the container and index the card records. */
  predicate Holds(b: Board, c: Coord, x: CardId)
  {
    var k := Key(c.controller, c.location);
    k in b.mat && c.sequence < |b.mat[k]| && b.mat[k][c.sequence] == Some(x) && x < |b.cards|
    && b.cards[x].current.controller == c.controller && b.cards[x].current.location == c.location
    && b.cards[x].current.sequence == c.sequence
  }

  /** The lookups and removals a successful MSG_SWAP went through. */
  lemma SwapIs(b: Board, first: Coord, second: Coord) returns (f: CardId, s: CardId, r1: Removal, r2: Removal)
    requires Swap(b, first, second).Ok?
    ensures At(b, first.controller, first.location, first.sequence, None) == Ok(Some(f))
    ensures At(b, second.controller, second.location, second.sequence, None) == Ok(Some(s))
    ensures Remove(b, first.controller, first.location, first.sequence) == Ok(r1)
    ensures Remove(r1.board, second.controller, second.location, second.sequence) == Ok(r2)
    ensures f < |r2.board.cards| && s < |r2.board.cards| && Swap(b, first, second) == Exchange(r2.board, f, s, first, second)
  {
    f := At(b, first.controller, first.location, first.sequence, None).value.value;
    s := At(b, second.controller, second.location, second.sequence, None).value.value;
    r1 := Remove(b, first.controller, first.location, first.sequence).value;
    r2 := Remove(r1.board, second.controller, second.location, second.sequence).value;
  }

  /** A plain lookup that finds a card finds the one seated in that slot. */
  lemma SwapLook(b: Board, c: Coord, x: CardId)
    requires Valid(b) && At(b, c.controller, c.location, c.sequence, None) == Ok(Some(x))
    ensures c.location in SIDE_LOCATIONS && c.location & 0x7F == c.location && Holds(b, c, x) && b.cards[x].overlayTarget.None?
  {
    AtOccupant(b, c.controller, c.location, c.sequence, x);
    Occupant(b, Key(c.controller, c.location), c.sequence);
  }

  /** The first removal of MSG_SWAP takes the first card. */
  lemma SwapFirst(b: Board, first: Coord, f: CardId, r1: Removal)
    requires Valid(b)
    requires At(b, first.controller, first.location, first.sequence, None) == Ok(Some(f))
    requires Remove(b, first.controller, first.location, first.sequence) == Ok(r1)
    ensures r1.target == f && Valid(r1.board) && Taken(b, r1) && ChangedAt(b, r1.board, Key(first.controller, first.location), f)
  {
    AtOccupant(b, first.controller, first.location, first.sequence, f);
    RemoveTaken(b, first.controller, first.location, first.sequence, f);
    RemoveFrame(b, first.controller, first.location, first.sequence);
  }

  /** The second removal of MSG_SWAP takes the card seated in the slot it names, from the board the first left. */
  lemma SwapSecond(b1: Board, second: Coord, f: CardId, r2: Removal)
    requires Valid(b1) && Remove(b1, second.controller, second.location, second.sequence) == Ok(r2)
    requires f < |b1.cards| && !Seated(b1, f)
    ensures var k := Key(second.controller, second.location & 0x7F);
      k in b1.mat && second.sequence < |b1.mat[k]| && b1.mat[k][second.sequence] == Some(r2.target)
      && Valid(r2.board) && ChangedAt(b1, r2.board, k, r2.target) && Taken(b1, r2)
      && f != r2.target && r2.board.cards[f] == b1.cards[f] && !Seated(r2.board, f)
  {
    var k := Key(second.controller, second.location & 0x7F);
    RemoveKeepsValid(b1, second.controller, second.location, second.sequence);
    RemoveFrame(b1, second.controller, second.location, second.sequence);
    RemoveSeated(b1, second.controller, second.location, second.sequence);
    UnseatedKept(b1, r2.board, k, r2.target, f);
  }

  /** What is left once both places are emptied: the first card sits nowhere, the second nowhere or in the first's container. */
  lemma SwapParts(b: Board, first: Coord, second: Coord, f: CardId, s: CardId, r1: Removal, r2: Removal)
    requires Holds(b, first, f) && Holds(b, second, s) && b.cards[f].overlayTarget.None? && b.cards[s].overlayTarget.None?
    requires r1.target == f && Taken(b, r1) && ChangedAt(b, r1.board, Key(first.controller, first.location), f)
    requires var k2 := Key(second.controller, second.location);
      k2 in r1.board.mat && second.sequence < |r1.board.mat[k2]| && r1.board.mat[k2][second.sequence] == Some(r2.target)
      && ChangedAt(r1.board, r2.board, k2, r2.target) && Taken(r1.board, r2)
      && r2.board.cards[f] == r1.board.cards[f] && !Seated(r2.board, f)
    ensures f < |r2.board.cards| && s < |r2.board.cards|
    ensures r2.board.cards[f].overlayTarget.None? && r2.board.cards[s].overlayTarget.None?
    ensures Seated(r2.board, s) ==> Key(r2.board.cards[s].current.controller, r2.board.cards[s].current.location) == Key(first.controller, first.location)
    ensures s == f ==> Key(first.controller, first.location) == Key(second.controller, second.location)
  {
    var k1 := Key(first.controller, first.location);
    var k2 := Key(second.controller, second.location);
    if k1 != k2 {
      assert r1.board.mat[k2] == b.mat[k2];
    }
  }

  /** The two `put`s keep the board valid when the first card sits nowhere and the second may go where it is put. */
  lemma ExchangeValid(b: Board, f: CardId, s: CardId, first: Coord, second: Coord)
    requires Valid(b) && f < |b.cards| && s < |b.cards| && first.location & 0x7F == first.location
    requires !Seated(b, f) && b.cards[f].overlayTarget.None? && b.cards[s].overlayTarget.None?
    requires Seated(b, s) ==> Key(b.cards[s].current.controller, b.cards[s].current.location) == Key(first.controller, first.location)
    requires s == f ==> Key(first.controller, first.location) == Key(second.controller, second.location)
    ensures Exchange(b, f, s, first, second).Ok? ==> Valid(Exchange(b, f, s, first, second).value)
  {
    PutKeepsValid(b, f, second.controller, second.location, second.sequence);
    var p := Put(b, f, second.controller, second.location, second.sequence);
    if p.Ok? {
      var b3 := p.value;
      PutOutcome(b, f, second.controller, second.location, second.sequence);
      PlainLocation(second.location);
      PutFrame(b, f, second.controller, second.location, second.sequence);
      PutOutcome(b3, s, first.controller, first.location, first.sequence);
      if s != f {
        if !Seated(b, s) {
          UnseatedKept(b, b3, Key(second.controller, second.location), f, s);
        }
        assert Free(b3, s, Key(first.controller, first.location & 0x7F));
        PutKeepsValid(b3, s, first.controller, first.location, first.sequence);
      }
    }
  }

  /** The two removals of MSG_SWAP leave a board on which its two `put`s keep validity. */
  lemma SwapSteps(b: Board, first: Coord, second: Coord, f: CardId, s: CardId, r1: Removal, r2: Removal)
    requires Valid(b)
    requires At(b, first.controller, first.location, first.sequence, None) == Ok(Some(f))
    requires At(b, second.controller, second.location, second.sequence, None) == Ok(Some(s))
    requires Remove(b, first.controller, first.location, first.sequence) == Ok(r1)
    requires Remove(r1.board, second.controller, second.location, second.sequence) == Ok(r2)
    requires f < |r2.board.cards| && s < |r2.board.cards|
    ensures Exchange(r2.board, f, s, first, second).Ok? ==> Valid(Exchange(r2.board, f, s, first, second).value)
  {
    SwapLook(b, first, f);
    SwapLook(b, second, s);
    SwapFirst(b, first, f, r1);
    SwapSecond(r1.board, second, f, r2);
    SwapParts(b, first, second, f, s, r1, r2);
    ExchangeValid(r2.board, f, s, first, second);
  }

  /** MSG_SWAP keeps the board valid whatever the coordinates. */
  lemma SwapKeepsValid(b: Board, first: Coord, second: Coord)
    requires Valid(b)
    ensures Swap(b, first, second).Ok? ==> Valid(Swap(b, first, second).value)
  {
    if Swap(b, first, second).Ok? {
      var f, s, r1, r2 := SwapIs(b, first, second);
      SwapSteps(b, first, second, f, s, r1, r2);
    }
  }

  /** The slot the coordinate names exists and holds a card. */
  predicate Occupied(b: Board, c: Coord)
  {
    var k := Key(c.controller, c.location);
    k in b.mat && c.sequence < |b.mat[k]| && b.mat[k][c.sequence].Some?
  }

  /** When every lookup and removal succeeds, MSG_SWAP is its two `put`s. */
  lemma SwapRuns(b: Board, first: Coord, second: Coord, f: CardId, s: CardId, r1: Removal, r2: Removal)
    requires At(b, first.controller, first.location, first.sequence, None) == Ok(Some(f))
    requires At(b, second.controller, second.location, second.sequence, None) == Ok(Some(s))
    requires Remove(b, first.controller, first.location, first.sequence) == Ok(r1)
    requires Remove(r1.board, second.controller, second.location, second.sequence) == Ok(r2)
    requires f < |r2.board.cards| && s < |r2.board.cards|
    ensures Swap(b, first, second) == Exchange(r2.board, f, s, first, second)
  {
  }

  /** An occupied plain slot is found by `at`. */
  lemma OccupiedAt(b: Board, c: Coord)
    requires Valid(b) && Occupied(b, c)
    ensures At(b, c.controller, c.location, c.sequence, None) == Ok(Some(b.mat[Key(c.controller, c.location)][c.sequence].value))
  {
    ShapedKeys(b.mat, Key(c.controller, c.location));
    PlainLocation(c.location);
  }

  /** Between two containers, the removals leave each card's destination without it and every third container as it was. */
  lemma SwapApart(b: Board, first: Coord, second: Coord, f: CardId, s: CardId, r1: Removal, r2: Removal)
    requires Valid(b) && Holds(b, first, f) && Holds(b, second, s)
    requires Key(first.controller, first.location) != Key(second.controller, second.location)
    requires r1.target == f && ChangedAt(b, r1.board, Key(first.controller, first.location), f)
    requires r2.target == s && ChangedAt(r1.board, r2.board, Key(second.controller, second.location), s)
    ensures var k1 := Key(first.controller, first.location); var k2 := Key(second.controller, second.location);
      k1 in r2.board.mat && k2 in r2.board.mat && Some(f) !in r2.board.mat[k2] && Some(s) !in r2.board.mat[k1]
      && forall k | k in b.mat && k != k1 && k != k2 :: k in r2.board.mat && r2.board.mat[k] == b.mat[k]
  {
    var k1 := Key(first.controller, first.location);
    var k2 := Key(second.controller, second.location);
    assert r1.board.mat[k2] == b.mat[k2];
    if Some(f) in r2.board.mat[k2] {
      InPileSeated(b, k2, f);
    }
    if Some(s) in r2.board.mat[k1] {
      InPileSeated(b, k1, s);
    }
  }

  /** The two `put`s into two different containers, neither holding the card it receives. */
  lemma ExchangeEffect(b: Board, f: CardId, s: CardId, first: Coord, second: Coord)
    requires Valid(b) && f < |b.cards| && s < |b.cards| && f != s
    requires !Seated(b, f) && !Seated(b, s) && b.cards[f].overlayTarget.None? && b.cards[s].overlayTarget.None?
    requires first.location in SIDE_LOCATIONS && second.location in SIDE_LOCATIONS && first.controller < 2 && second.controller < 2
    requires var k1 := Key(first.controller, first.location); var k2 := Key(second.controller, second.location);
      k1 != k2 && Some(f) !in b.mat[k2] && Some(s) !in b.mat[k1]
    ensures Exchange(b, f, s, first, second).Ok?
    ensures var k1 := Key(first.controller, first.location); var k2 := Key(second.controller, second.location);
      var r := Exchange(b, f, s, first, second).value;
      |r.cards| == |b.cards| && k1 in r.mat && k2 in r.mat && Some(f) in r.mat[k2] && Some(s) in r.mat[k1]
      && r.cards[f].current.controller == second.controller && r.cards[f].current.location == second.location
      && r.cards[s].current.controller == first.controller && r.cards[s].current.location == first.location
      && forall k | k in b.mat && k != k1 && k != k2 :: k in r.mat && r.mat[k] == b.mat[k]
  {
    var k1 := Key(first.controller, first.location);
    var k2 := Key(second.controller, second.location);
    ShapedKeys(b.mat, k1);
    ShapedKeys(b.mat, k2);
    PutOutcome(b, f, second.controller, second.location, second.sequence);
    var b3 := Put(b, f, second.controller, second.location, second.sequence).value;
    PlainLocation(second.location);
    PlainLocation(first.location);
    PutFrame(b, f, second.controller, second.location, second.sequence);
    PutKeepsValid(b, f, second.controller, second.location, second.sequence);
    UnseatedKept(b, b3, k2, f, s);
    PutOutcome(b3, s, first.controller, first.location, first.sequence);
    PutFrame(b3, s, first.controller, first.location, first.sequence);
  }

  /** Card `f` went from the first place to the second's container and `s` the other way; no third container changed. */
  ghost predicate Swapped(b: Board, r: Board, first: Coord, second: Coord, f: CardId, s: CardId)
  {
    var k1 := Key(first.controller, first.location); var k2 := Key(second.controller, second.location);
    f < |r.cards| && s < |r.cards| && k1 in r.mat && k2 in r.mat && Some(f) in r.mat[k2] && Some(s) in r.mat[k1]
    && r.cards[f].current.controller == second.controller && r.cards[f].current.location == second.location
    && r.cards[s].current.controller == first.controller && r.cards[s].current.location == first.location
    && forall k | k in b.mat && k != k1 && k != k2 :: k in r.mat && r.mat[k] == b.mat[k]
  }

  /** The sequence of steps of MSG_SWAP between two occupied slots of two different containers. */
  lemma SwapTail(b: Board, first: Coord, second: Coord, f: CardId, s: CardId, r1: Removal, r2: Removal)
    requires Valid(b) && Holds(b, first, f) && Holds(b, second, s)
    requires Key(first.controller, first.location) != Key(second.controller, second.location)
    requires first.location in SIDE_LOCATIONS && second.location in SIDE_LOCATIONS
    requires At(b, first.controller, first.location, first.sequence, None) == Ok(Some(f))
    requires At(b, second.controller, second.location, second.sequence, None) == Ok(Some(s))
    requires Remove(b, first.controller, first.location, first.sequence) == Ok(r1)
    requires Remove(r1.board, second.controller, second.location, second.sequence) == Ok(r2)
    requires r1.target == f && ChangedAt(b, r1.board, Key(first.controller, first.location), f) && Taken(b, r1)
    requires r2.target == s && ChangedAt(r1.board, r2.board, Key(second.controller, second.location), s) && Taken(r1.board, r2)
    requires Valid(r2.board) && r2.board.cards[f] == r1.board.cards[f] && !Seated(r2.board, f)
    requires b.cards[f].overlayTarget.None? && b.cards[s].overlayTarget.None?
    ensures Swap(b, first, second).Ok? && Swapped(b, Swap(b, first, second).value, first, second, f, s)
  {
    SwapApart(b, first, second, f, s, r1, r2);
    SwapRuns(b, first, second, f, s, r1, r2);
    ExchangeEffect(r2.board, f, s, first, second);
  }

  /** Both slots occupied: the removals of MSG_SWAP succeed and prepare its two `put`s. */
  lemma SwapWhenOccupied(b: Board, first: Coord, second: Coord)
    requires Valid(b) && Key(first.controller, first.location) != Key(second.controller, second.location)
    requires Occupied(b, first) && Occupied(b, second)
    ensures Swap(b, first, second).Ok?
    ensures Swapped(b, Swap(b, first, second).value, first, second,
      b.mat[Key(first.controller, first.location)][first.sequence].value, b.mat[Key(second.controller, second.location)][second.sequence].value)
  {
    var k1 := Key(first.controller, first.location);
    var k2 := Key(second.controller, second.location);
    var f := b.mat[k1][first.sequence].value;
    var s := b.mat[k2][second.sequence].value;
    OccupiedAt(b, first);
    OccupiedAt(b, second);
    SwapLook(b, first, f);
    SwapLook(b, second, s);
    AtOccupant(b, first.controller, first.location, first.sequence, f);
    var r1 := Remove(b, first.controller, first.location, first.sequence).value;
    SwapFirst(b, first, f, r1);
    assert r1.board.mat[k2] == b.mat[k2];
    RemoveOutcome(r1.board, second.controller, second.location, second.sequence);
    var r2 := Remove(r1.board, second.controller, second.location, second.sequence).value;
    SwapSecond(r1.board, second, f, r2);
    SwapTail(b, first, second, f, s, r1, r2);
  }

  /**
   * MSG_SWAP between two different containers (the exchange of control the
   * engine reports) succeeds exactly when both slots hold a card; then each
   * card is in the other's container, under the other's controller and
   * location, every third container is unchanged and the board stays valid.
   */
  lemma SwapEffect(b: Board, first: Coord, second: Coord)
    requires Valid(b) && Key(first.controller, first.location) != Key(second.controller, second.location)
    ensures Swap(b, first, second).Ok? <==> Occupied(b, first) && Occupied(b, second)
    ensures Swap(b, first, second).Ok? ==>
      Valid(Swap(b, first, second).value)
      && Swapped(b, Swap(b, first, second).value, first, second,
           b.mat[Key(first.controller, first.location)][first.sequence].value, b.mat[Key(second.controller, second.location)][second.sequence].value)
  {
    SwapKeepsValid(b, first, second);
    if Swap(b, first, second).Ok? {
      var f, s, r1, r2 := SwapIs(b, first, second);
      SwapLook(b, first, f);
      SwapLook(b, second, s);
    }
    if Occupied(b, first) && Occupied(b, second) {
      SwapWhenOccupied(b, first, second);
    }
  }

  // ---------------------------------------------------------- pos change

  /** `target.position = position; target.dirty = true`. */
  function Turned(c: Card, position: Position): Card
  {
    c.(current := c.current.(position := position), dirty := true)
  }

  /** MSG_POS_CHANGE: the card in the current place takes the new position. */
  function PosChange(b: Board, controller: nat, location: Location, sequence: nat, position: Position): Result<Board>
  {
    match At(b, controller, location, sequence, None)
    case Err(e) => Err(e)
    case Ok(t) =>
      if t.None? || t.value >= |b.cards| then Err(TYPE_ERROR)
      else Ok(Board(b.cards[t.value := Turned(b.cards[t.value], position)], b.mat))
  }

  /**
   * MSG_POS_CHANGE fails exactly when the place holds no card (an unknown
   * player or location, a slot past the end or empty, or an OVERLAY location,
   * whose lookup without a subsequence gives `undefined`). Otherwise that card,
   * and no other, shows the new position and is dirty, and the board stays valid.
   */
  lemma PosChangeEffect(b: Board, controller: nat, location: Location, sequence: nat, position: Position)
    requires Valid(b)
    ensures PosChange(b, controller, location, sequence, position).Ok? <==> Occupied(b, Coord(controller, location, sequence))
    ensures PosChange(b, controller, location, sequence, position).Ok? ==>
      var k := Key(controller, location); var x := b.mat[k][sequence].value; var r := PosChange(b, controller, location, sequence, position).value;
      Valid(r) && r.mat == b.mat && |r.cards| == |b.cards| && x < |b.cards|
      && r.cards[x].current.position == position && r.cards[x].dirty
      && r.cards[x].current == b.cards[x].current.(position := position)
      && (forall y | 0 <= y < |b.cards| && y != x :: r.cards[y] == b.cards[y])
  {
    var c := Coord(controller, location, sequence);
    LocateMeaning(b.mat, controller, location);
    if PosChange(b, controller, location, sequence, position).Ok? {
      var x := At(b, controller, location, sequence, None).value.value;
      SwapLook(b, c, x);
      KeptValid(b, PosChange(b, controller, location, sequence, position).value.cards);
    }
    if Occupied(b, c) {
      OccupiedAt(b, c);
      Occupant(b, Key(controller, location), sequence);
    }
  }

  // -------------------------------------------------------------- confirm

  /** The cards after a reveal and the log lines it wrote. */
  datatype Revealed = Revealed(cards: seq<Card>, notes: seq<Note>)

  /** `if (code) { target.set(code) }`: a zero code leaves the card as it is. */
  function Shown(c: Card, code: int): Card
  {
    if code != 0 then SetCode(c, code) else c
  }

  /** The line logged for a revealed card: its name in brackets, "undefined" when unknown. */
  function RevealLine(q: Query, c: Card): Note
  {
    Logged(" * [" + NameText(q, c.current.code) + "]")
  }

  /**
   * The loop of MSG_CONFIRM_DECKTOP and MSG_CONFIRM_EXTRATOP from card `i`
   * on: the `i`-th revealed card is the one at index `base - i`, a missing
   * one throwing.
   */
  function Reveal(q: Query, cards: seq<Card>, pile: seq<Slot>, base: int, codes: seq<int>, i: nat): (r: Result<Revealed>)
    ensures r.Ok? ==> |r.value.cards| == |cards|
    decreases |codes| - i
  {
    if i >= |codes| then Ok(Revealed(cards, []))
    else
      var at := base - i;
      if at < 0 || at >= |pile| || pile[at].None? || pile[at].value >= |cards| then Err(TYPE_ERROR)
      else
        var x := pile[at].value;
        var c := Shown(cards[x], codes[i]);
        match Reveal(q, cards[x := c], pile, base, codes, i + 1)
        case Err(e) => Err(e)
        case Ok(rest) => Ok(Revealed(rest.cards, [RevealLine(q, c)] + rest.notes))
  }

  /** The index the `j`-th revealed card is read from. */
  function TopDown(base: int, j: nat): int
  {
    base - j
  }

  /** The indices the loop from card `i` on reads all hold a card. */
  predicate Reachable(cards: seq<Card>, pile: seq<Slot>, base: int, n: nat, i: nat)
  {
    forall j | i <= j < n :: 0 <= TopDown(base, j) < |pile| && pile[TopDown(base, j)].Some? && pile[TopDown(base, j)].value < |cards|
  }

  /** The reveal loop succeeds exactly when every index it reads holds a card. */
  lemma {:induction false} RevealOk(q: Query, cards: seq<Card>, pile: seq<Slot>, base: int, codes: seq<int>, i: nat)
    ensures Reveal(q, cards, pile, base, codes, i).Ok? <==> Reachable(cards, pile, base, |codes|, i)
    decreases |codes| - i
  {
    if i < |codes| {
      var at := TopDown(base, i);
      if 0 <= at < |pile| && pile[at].Some? && pile[at].value < |cards| {
        var x := pile[at].value;
        RevealOk(q, cards[x := Shown(cards[x], codes[i])], pile, base, codes, i + 1);
      }
    }
  }

  /** The `k`-th note after a first one is the `k - 1`-th of the rest. */
  lemma ConsIndex<T>(first: T, rest: seq<T>, k: nat)
    requires 0 < k <= |rest|
    ensures ([first] + rest)[k] == rest[k - 1]
  {
  }

  /** One turn of the reveal loop: card `i` is shown and named, then the loop goes on from `i + 1`. */
  lemma RevealStep(q: Query, cards: seq<Card>, pile: seq<Slot>, base: int, codes: seq<int>, i: nat)
    requires i < |codes| && 0 <= TopDown(base, i) < |pile| && pile[TopDown(base, i)].Some? && pile[TopDown(base, i)].value < |cards|
    requires Reveal(q, cards, pile, base, codes, i).Ok?
    ensures var x := pile[TopDown(base, i)].value; var cs := cards[x := Shown(cards[x], codes[i])];
      Reveal(q, cs, pile, base, codes, i + 1).Ok?
      && Reveal(q, cards, pile, base, codes, i).value
         == Revealed(Reveal(q, cs, pile, base, codes, i + 1).value.cards, [RevealLine(q, cs[x])] + Reveal(q, cs, pile, base, codes, i + 1).value.notes)
  {
  }

  /** The indices the loop reads after card `i` differ from the one it reads for card `i`. */
  lemma LaterElsewhere(pile: seq<Slot>, base: int, n: nat, cards: seq<Card>, i: nat)
    requires i < n && Reachable(cards, pile, base, n, i) && Distinct(pile)
    ensures forall j | i < j < n :: pile[TopDown(base, j)] != pile[TopDown(base, i)]
  {
    forall j | i < j < n
      ensures pile[TopDown(base, j)] != pile[TopDown(base, i)]
    {
      assert TopDown(base, j) < TopDown(base, i);
    }
  }

  /** On a pile without repeats every revealed card shows its code (kept when the code is 0), and no other card changes. */
  lemma {:induction false} RevealCards(q: Query, cards: seq<Card>, pile: seq<Slot>, base: int, codes: seq<int>, i: nat)
    requires i <= |codes| && Reachable(cards, pile, base, |codes|, i) && Distinct(pile)
    ensures Reveal(q, cards, pile, base, codes, i).Ok?
    ensures var r := Reveal(q, cards, pile, base, codes, i).value;
      (forall j | i <= j < |codes| :: r.cards[pile[TopDown(base, j)].value] == Shown(cards[pile[TopDown(base, j)].value], codes[j]))
      && (forall y | 0 <= y < |cards| && (forall j | i <= j < |codes| :: pile[TopDown(base, j)] != Some(y)) :: r.cards[y] == cards[y])
    decreases |codes| - i
  {
    RevealOk(q, cards, pile, base, codes, i);
    if i < |codes| {
      var x := pile[TopDown(base, i)].value;
      var cs := cards[x := Shown(cards[x], codes[i])];
      RevealCards(q, cs, pile, base, codes, i + 1);
      LaterElsewhere(pile, base, |codes|, cards, i);
      RevealStep(q, cards, pile, base, codes, i);
    }
  }

  /** On a pile without repeats one log line per revealed card names it, as it was shown, in order. */
  lemma {:induction false} RevealNotes(q: Query, cards: seq<Card>, pile: seq<Slot>, base: int, codes: seq<int>, i: nat)
    requires i <= |codes| && Reachable(cards, pile, base, |codes|, i) && Distinct(pile)
    ensures Reveal(q, cards, pile, base, codes, i).Ok?
    ensures var r := Reveal(q, cards, pile, base, codes, i).value;
      |r.notes| == |codes| - i
      && forall j | i <= j < |codes| :: r.notes[j - i] == RevealLine(q, Shown(cards[pile[TopDown(base, j)].value], codes[j]))
    decreases |codes| - i
  {
    RevealOk(q, cards, pile, base, codes, i);
    if i < |codes| {
      var x := pile[TopDown(base, i)].value;
      var cs := cards[x := Shown(cards[x], codes[i])];
      RevealNotes(q, cs, pile, base, codes, i + 1);
      LaterElsewhere(pile, base, |codes|, cards, i);
      RevealStep(q, cards, pile, base, codes, i);
      var r := Reveal(q, cards, pile, base, codes, i).value;
      var rest := Reveal(q, cs, pile, base, codes, i + 1).value;
      forall j | i <= j < |codes|
        ensures r.notes[j - i] == RevealLine(q, Shown(cards[pile[TopDown(base, j)].value], codes[j]))
      {
        if j > i {
          ConsIndex(RevealLine(q, cs[x]), rest.notes, j - i);
        }
      }
    }
  }

  /**
   * On a pile without repeats every revealed card shows its code (kept when
   * the code is 0), one log line per card names it in order, and no other
   * card changes.
   */
  lemma RevealEffect(q: Query, cards: seq<Card>, pile: seq<Slot>, base: int, codes: seq<int>, i: nat)
    requires i <= |codes| && Reachable(cards, pile, base, |codes|, i) && Distinct(pile)
    ensures Reveal(q, cards, pile, base, codes, i).Ok?
    ensures var r := Reveal(q, cards, pile, base, codes, i).value;
      |r.notes| == |codes| - i
      && (forall j | i <= j < |codes| ::
            r.cards[pile[TopDown(base, j)].value] == Shown(cards[pile[TopDown(base, j)].value], codes[j])
            && r.notes[j - i] == RevealLine(q, r.cards[pile[TopDown(base, j)].value]))
      && (forall y | 0 <= y < |cards| && (forall j | i <= j < |codes| :: pile[TopDown(base, j)] != Some(y)) :: r.cards[y] == cards[y])
  {
    RevealCards(q, cards, pile, base, codes, i);
    RevealNotes(q, cards, pile, base, codes, i);
  }

  /** The numbered header line of a confirmation: template 207 with the number of cards. */
  function ConfirmHeader(t: Templates, n: nat): Result<string>
  {
    Render(t, 207, [ArgStr(IntToString(n))])
  }

  /** The result of a revealing message: its cards revealed on the board after the header line. */
  function Confirmed(b: Board, header: string, rv: Revealed): (Board, seq<Note>)
  {
    (Board(rv.cards, b.mat), [Logged(header)] + rv.notes)
  }

  /** MSG_CONFIRM_DECKTOP: the top cards of the deck, from the top down. */
  function ConfirmDeckTop(t: Templates, q: Query, b: Board, player: nat, codes: seq<int>): Result<(Board, seq<Note>)>
  {
    match ConfirmHeader(t, |codes|)
    case Err(e) => Err(e)
    case Ok(header) =>
      match Locate(b.mat, player, DECK)
      case Err(e) => Err(e)
      case Ok(k) =>
        var pile := b.mat[k];
        match Reveal(q, b.cards, pile, |pile| - 1, codes, 0)
        case Err(e) => Err(e)
        case Ok(rv) => Ok(Confirmed(b, header, rv))
  }

  /** `extra.length - (poff === -1 ? 0 : poff) - 1`, the index MSG_CONFIRM_EXTRATOP starts from as written. */
  function ExtraTopBaseAsWritten(len: nat, poff: int): int
  {
    len - (if poff == -1 then 0 else poff) - 1
  }

  /** The index of the topmost face-down card of the extra deck: just below the first face-up card, if any. */
  function ExtraTopBase(len: nat, poff: int): int
  {
    (if poff == -1 then len else poff) - 1
  }

  /** MSG_CONFIRM_EXTRATOP, starting from the index the as-written or the corrected rule gives for the first face-up index. */
  function ExtraTop(t: Templates, q: Query, b: Board, player: nat, codes: seq<int>, asWritten: bool): Result<(Board, seq<Note>)>
  {
    match ConfirmHeader(t, |codes|)
    case Err(e) => Err(e)
    case Ok(header) =>
      match Locate(b.mat, player, EXTRA)
      case Err(e) => Err(e)
      case Ok(k) =>
        var pile := b.mat[k];
        match FirstFaceUp(b.cards, pile, 0)
        case Err(e) => Err(e)
        case Ok(poff) =>
          var base := if asWritten then ExtraTopBaseAsWritten(|pile|, poff) else ExtraTopBase(|pile|, poff);
          match Reveal(q, b.cards, pile, base, codes, 0)
          case Err(e) => Err(e)
          case Ok(rv) => Ok(Confirmed(b, header, rv))
  }

  /** MSG_CONFIRM_EXTRATOP as written: the count of face-up cards is taken to be their first index. */
  function ConfirmExtraTopAsWritten(t: Templates, q: Query, b: Board, player: nat, codes: seq<int>): Result<(Board, seq<Note>)>
  {
    ExtraTop(t, q, b, player, codes, true)
  }

  /** MSG_CONFIRM_EXTRATOP revealing the face-down cards from the topmost one down. */
  function ConfirmExtraTop(t: Templates, q: Query, b: Board, player: nat, codes: seq<int>): Result<(Board, seq<Note>)>
  {
    ExtraTop(t, q, b, player, codes, false)
  }

  /**
   * On an extra deck that keeps its face-down cards below its face-up ones,
   * the corrected starting index is the topmost face-down card: every card up
   * to it is face down and the next one, if any, face up.
   */
  lemma ExtraTopBaseMeaning(cards: seq<Card>, pile: seq<Slot>)
    requires Filled(cards, pile) && FaceDownFirst(cards, pile)
    ensures FirstFaceUp(cards, pile, 0).Ok?
    ensures var base := ExtraTopBase(|pile|, FirstFaceUp(cards, pile, 0).value);
      -1 <= base < |pile|
      && (forall i | 0 <= i <= base :: !FaceUpAt(cards, pile, i))
      && (base + 1 < |pile| ==> FaceUpAt(cards, pile, base + 1))
  {
    FirstFaceUpMeaning(cards, pile, 0);
  }

  /** Revealing keeps where every card sits, so a valid board stays valid. */
  lemma RevealKeepsValid(q: Query, b: Board, k: Key, base: int, codes: seq<int>)
    requires Valid(b) && k in b.mat && Reveal(q, b.cards, b.mat[k], base, codes, 0).Ok?
    ensures Valid(Board(Reveal(q, b.cards, b.mat[k], base, codes, 0).value.cards, b.mat))
  {
    var pile := b.mat[k];
    PileDistinct(b, k);
    RevealOk(q, b.cards, pile, base, codes, 0);
    RevealEffect(q, b.cards, pile, base, codes, 0);
    var r := Reveal(q, b.cards, pile, base, codes, 0).value;
    forall y | 0 <= y < |b.cards|
      ensures Kept(b.cards[y], r.cards[y])
    {
      if j :| 0 <= j < |codes| && pile[TopDown(base, j)] == Some(y) {
      }
    }
    KeptValid(b, r.cards);
  }

  /**
   * What a confirmation did: the board is valid with the same containers;
   * the header comes first, then one line per code; the `j`-th code went to
   * the card at index `base - j` of the pile, which the `j + 1`-th line names;
   * no other card changed.
   */
  ghost predicate ShowsFrom(q: Query, b: Board, pile: seq<Slot>, base: int, codes: seq<int>, header: string, result: (Board, seq<Note>))
  {
    var (r, notes) := result;
    Valid(r) && r.mat == b.mat && |r.cards| == |b.cards| && |notes| == |codes| + 1 && notes[0] == Logged(header)
    && (forall j | 0 <= j < |codes| ::
          0 <= TopDown(base, j) < |pile| && pile[TopDown(base, j)].Some? && pile[TopDown(base, j)].value < |b.cards|
          && r.cards[pile[TopDown(base, j)].value] == Shown(b.cards[pile[TopDown(base, j)].value], codes[j])
          && notes[j + 1] == RevealLine(q, r.cards[pile[TopDown(base, j)].value]))
    && (forall y | 0 <= y < |b.cards| && (forall j | 0 <= j < |codes| :: pile[TopDown(base, j)] != Some(y)) :: r.cards[y] == b.cards[y])
  }

  /** A reveal of a container, all of whose read indices hold cards, does what `ShowsFrom` says. */
  lemma ConfirmedEffect(q: Query, b: Board, k: Key, base: int, codes: seq<int>, header: string)
    requires Valid(b) && k in b.mat && Reachable(b.cards, b.mat[k], base, |codes|, 0)
    ensures Reveal(q, b.cards, b.mat[k], base, codes, 0).Ok?
    ensures ShowsFrom(q, b, b.mat[k], base, codes, header, Confirmed(b, header, Reveal(q, b.cards, b.mat[k], base, codes, 0).value))
  {
    PileDistinct(b, k);
    RevealEffect(q, b.cards, b.mat[k], base, codes, 0);
    RevealKeepsValid(q, b, k, base, codes);
  }

  lemma ConfirmDeckTopIs(t: Templates, q: Query, b: Board, player: nat, codes: seq<int>)
    requires ConfirmHeader(t, |codes|).Ok? && player < 2 && Key(player, DECK) in b.mat
    ensures var deck := b.mat[Key(player, DECK)]; var rv := Reveal(q, b.cards, deck, |deck| - 1, codes, 0);
      (ConfirmDeckTop(t, q, b, player, codes).Ok? <==> rv.Ok?)
      && (rv.Ok? ==> ConfirmDeckTop(t, q, b, player, codes).value == Confirmed(b, ConfirmHeader(t, |codes|).value, rv.value))
  {
  }

  /**
   * MSG_CONFIRM_DECKTOP, once its header line renders, fails exactly for a
   * player without containers or more cards than the deck holds. Otherwise
   * the `j`-th code goes to the `j`-th card from the top, each revealed card
   * is logged in that order after the header, nothing else changes and the
   * board stays valid.
   */
  lemma ConfirmDeckTopEffect(t: Templates, q: Query, b: Board, player: nat, codes: seq<int>)
    requires Valid(b) && ConfirmHeader(t, |codes|).Ok?
    ensures ConfirmDeckTop(t, q, b, player, codes).Ok? <==> player < 2 && |codes| <= |b.mat[Key(player, DECK)]|
    ensures ConfirmDeckTop(t, q, b, player, codes).Ok? ==>
      var deck := b.mat[Key(player, DECK)];
      ShowsFrom(q, b, deck, |deck| - 1, codes, ConfirmHeader(t, |codes|).value, ConfirmDeckTop(t, q, b, player, codes).value)
  {
    ConfirmDeckTopOk(t, q, b, player, codes);
    if ConfirmDeckTop(t, q, b, player, codes).Ok? {
      ConfirmDeckTopShows(t, q, b, player, codes);
    }
  }

  /** The failure cases of `ConfirmDeckTopEffect`. */
  lemma ConfirmDeckTopOk(t: Templates, q: Query, b: Board, player: nat, codes: seq<int>)
    requires Valid(b) && ConfirmHeader(t, |codes|).Ok?
    ensures ConfirmDeckTop(t, q, b, player, codes).Ok? <==> player < 2 && |codes| <= |b.mat[Key(player, DECK)]|
  {
    var k := Key(player, DECK);
    LocateMeaning(b.mat, player, DECK);
    ShapedKeys(b.mat, k);
    if player < 2 {
      var deck := b.mat[k];
      PileFilled(b, k);
      ConfirmDeckTopIs(t, q, b, player, codes);
      RevealOk(q, b.cards, deck, |deck| - 1, codes, 0);
      if |codes| > |deck| {
        assert !(0 <= TopDown(|deck| - 1, |deck|));
      }
    }
  }

  /** The successful case of `ConfirmDeckTopEffect`. */
  lemma ConfirmDeckTopShows(t: Templates, q: Query, b: Board, player: nat, codes: seq<int>)
    requires Valid(b) && ConfirmHeader(t, |codes|).Ok?
    requires player < 2 && Key(player, DECK) in b.mat && |codes| <= |b.mat[Key(player, DECK)]|
    ensures ConfirmDeckTop(t, q, b, player, codes).Ok?
    ensures var deck := b.mat[Key(player, DECK)];
      ShowsFrom(q, b, deck, |deck| - 1, codes, ConfirmHeader(t, |codes|).value, ConfirmDeckTop(t, q, b, player, codes).value)
  {
    var k := Key(player, DECK);
    var deck := b.mat[k];
    PileFilled(b, k);
    ConfirmDeckTopIs(t, q, b, player, codes);
    TopReachable(b.cards, deck, |codes|);
    ConfirmedEffect(q, b, k, |deck| - 1, codes, ConfirmHeader(t, |codes|).value);
  }

  /** Reading down from the top of a filled pile reaches a card for as many steps as the pile is long. */
  lemma TopReachable(cards: seq<Card>, pile: seq<Slot>, n: nat)
    requires Filled(cards, pile) && n <= |pile|
    ensures Reachable(cards, pile, |pile| - 1, n, 0)
  {
  }

  /** The number of face-down cards below the first face-up one, all of them when none is face up. */
  function FaceDownCount(cards: seq<Card>, pile: seq<Slot>): int
  {
    match FirstFaceUp(cards, pile, 0)
    case Err(_) => 0
    case Ok(poff) => ExtraTopBase(|pile|, poff) + 1
  }

  lemma ConfirmExtraTopIs(t: Templates, q: Query, b: Board, player: nat, codes: seq<int>)
    requires ConfirmHeader(t, |codes|).Ok? && player < 2 && Key(player, EXTRA) in b.mat
    requires FirstFaceUp(b.cards, b.mat[Key(player, EXTRA)], 0).Ok?
    ensures var extra := b.mat[Key(player, EXTRA)]; var base := FaceDownCount(b.cards, extra) - 1;
      var rv := Reveal(q, b.cards, extra, base, codes, 0);
      (ConfirmExtraTop(t, q, b, player, codes).Ok? <==> rv.Ok?)
      && (rv.Ok? ==> ConfirmExtraTop(t, q, b, player, codes).value == Confirmed(b, ConfirmHeader(t, |codes|).value, rv.value))
  {
  }

  /**
   * MSG_CONFIRM_EXTRATOP, corrected: on an extra deck that keeps its
   * face-down cards below its face-up ones, once the header renders, it fails
   * exactly for a player without containers or more cards than there are face
   * down. Otherwise the `j`-th code goes to the `j`-th face-down card from the
   * top, each logged in that order after the header, nothing else changes and
   * the board stays valid.
   */
  lemma ConfirmExtraTopEffect(t: Templates, q: Query, b: Board, player: nat, codes: seq<int>)
    requires Valid(b) && ConfirmHeader(t, |codes|).Ok?
    requires Key(player, EXTRA) in b.mat ==> FaceDownFirst(b.cards, b.mat[Key(player, EXTRA)])
    ensures ConfirmExtraTop(t, q, b, player, codes).Ok? <==>
      player < 2 && |codes| <= FaceDownCount(b.cards, b.mat[Key(player, EXTRA)])
    ensures ConfirmExtraTop(t, q, b, player, codes).Ok? ==>
      var extra := b.mat[Key(player, EXTRA)]; var base := FaceDownCount(b.cards, extra) - 1;
      ShowsFrom(q, b, extra, base, codes, ConfirmHeader(t, |codes|).value, ConfirmExtraTop(t, q, b, player, codes).value)
      && forall j | 0 <= j < |codes| :: 0 <= TopDown(base, j) < |extra| && !FaceUpAt(b.cards, extra, TopDown(base, j))
  {
    var k := Key(player, EXTRA);
    LocateMeaning(b.mat, player, EXTRA);
    ShapedKeys(b.mat, k);
    if player < 2 {
      var extra := b.mat[k];
      PileFilled(b, k);
      ExtraTopBaseMeaning(b.cards, extra);
      ConfirmExtraTopIs(t, q, b, player, codes);
      var base := FaceDownCount(b.cards, extra) - 1;
      RevealOk(q, b.cards, extra, base, codes, 0);
      if |codes| <= base + 1 {
        assert Reachable(b.cards, extra, base, |codes|, 0);
        ConfirmedEffect(q, b, k, base, codes, ConfirmHeader(t, |codes|).value);
      } else {
        assert !(0 <= TopDown(base, base + 1));
      }
    }
  }

  /** An extra deck of five cards, the bottom one face down, the other four face up. */
  function FiveExtra(): Board
  {
    Board([NewCard(CardState(0, 0, EXTRA, 0, FACEDOWN_DEFENSE)), NewCard(CardState(0, 0, EXTRA, 1, FACEUP_ATTACK)),
           NewCard(CardState(0, 0, EXTRA, 2, FACEUP_ATTACK)), NewCard(CardState(0, 0, EXTRA, 3, FACEUP_ATTACK)),
           NewCard(CardState(0, 0, EXTRA, 4, FACEUP_ATTACK))],
          EmptyMat()[Key(0, EXTRA) := [Some(0), Some(1), Some(2), Some(3), Some(4)]])
  }

  /**
   * As written, confirming the top card of that extra deck starts from index
   * 3, a face-up card, and renames it; the corrected index is 0, the only
   * face-down card.
   */
  lemma ExtraTopAsWrittenRevealsFaceUp(t: Templates, q: Query)
    requires 207 !in t
    ensures var b := FiveExtra(); var pile := b.mat[Key(0, EXTRA)];
      FirstFaceUp(b.cards, pile, 0) == Ok(1)
      && ExtraTopBaseAsWritten(5, 1) == 3 && FaceUpAt(b.cards, pile, 3)
      && ExtraTopBase(5, 1) == 0 && !FaceUpAt(b.cards, pile, 0)
      && ConfirmExtraTopAsWritten(t, q, b, 0, [77]).Ok?
      && ConfirmExtraTopAsWritten(t, q, b, 0, [77]).value.0.cards[3].current.code == 77
      && ConfirmExtraTop(t, q, b, 0, [77]).Ok?
      && ConfirmExtraTop(t, q, b, 0, [77]).value.0.cards[0].current.code == 77
      && ConfirmExtraTop(t, q, b, 0, [77]).value.0.cards[3].current.code == 0
  {
    var b := FiveExtra();
    var pile := b.mat[Key(0, EXTRA)];
    assert HasBits(FACEUP_ATTACK, FACEUP) && !HasBits(FACEDOWN_DEFENSE, FACEUP);
    assert FirstFaceUp(b.cards, pile, 1) == Ok(1);
    assert FirstFaceUp(b.cards, pile, 0) == Ok(1);
  }

  // -------------------------------------------------------------- shuffle

  /** `pile[i].set(codes[i])` for every code from `i` on; a missing card throws. */
  function SetEach(cards: seq<Card>, pile: seq<Slot>, codes: seq<int>, i: nat): (r: Result<seq<Card>>)
    ensures r.Ok? ==> |r.value| == |cards|
    decreases |codes| - i
  {
    if i >= |codes| then Ok(cards)
    else if i >= |pile| || pile[i].None? || pile[i].value >= |cards| then Err(TYPE_ERROR)
    else SetEach(cards[pile[i].value := SetCode(cards[pile[i].value], codes[i])], pile, codes, i + 1)
  }

  /** `n` zero codes: MSG_SHUFFLE_DECK hides every card of the deck. */
  function Zeros(n: nat): (r: seq<int>)
    ensures |r| == n && forall i | 0 <= i < n :: r[i] == 0
  {
    seq(n, i => 0)
  }

  /** MSG_SHUFFLE_DECK: every card of the deck loses its code. */
  function ShuffleDeck(b: Board, player: nat): Result<Board>
  {
    match Locate(b.mat, player, DECK)
    case Err(e) => Err(e)
    case Ok(k) =>
      match SetEach(b.cards, b.mat[k], Zeros(|b.mat[k]|), 0)
      case Err(e) => Err(e)
      case Ok(cs) => Ok(Board(cs, b.mat))
  }

  /** MSG_SHUFFLE_HAND: the `i`-th card of the hand takes the `i`-th code. */
  function ShuffleHand(b: Board, player: nat, codes: seq<int>): Result<Board>
  {
    match Locate(b.mat, player, HAND)
    case Err(e) => Err(e)
    case Ok(k) =>
      match SetEach(b.cards, b.mat[k], codes, 0)
      case Err(e) => Err(e)
      case Ok(cs) => Ok(Board(cs, b.mat))
  }

  /** Every slot the loop from `i` on writes holds a card. */
  predicate Writable(cards: seq<Card>, pile: seq<Slot>, n: nat, i: nat)
  {
    (i < n ==> n <= |pile|) && forall j | i <= j < n :: pile[j].Some? && pile[j].value < |cards|
  }

  /** The renaming loop succeeds exactly when every slot it writes holds a card. */
  lemma {:induction false} SetEachOk(cards: seq<Card>, pile: seq<Slot>, codes: seq<int>, i: nat)
    ensures SetEach(cards, pile, codes, i).Ok? <==> Writable(cards, pile, |codes|, i)
    decreases |codes| - i
  {
    if i < |codes| && i < |pile| && pile[i].Some? && pile[i].value < |cards| {
      SetEachOk(cards[pile[i].value := SetCode(cards[pile[i].value], codes[i])], pile, codes, i + 1);
    }
  }

  /** On a pile without repeats the loop gives the `j`-th card the `j`-th code and changes no other card. */
  lemma {:induction false} SetEachEffect(cards: seq<Card>, pile: seq<Slot>, codes: seq<int>, i: nat)
    requires Writable(cards, pile, |codes|, i) && Distinct(pile)
    ensures SetEach(cards, pile, codes, i).Ok?
    ensures var r := SetEach(cards, pile, codes, i).value;
      (forall j | i <= j < |codes| :: r[pile[j].value] == SetCode(cards[pile[j].value], codes[j]))
      && (forall y | 0 <= y < |cards| && (forall j | i <= j < |codes| :: pile[j] != Some(y)) :: r[y] == cards[y])
    decreases |codes| - i
  {
    SetEachOk(cards, pile, codes, i);
    if i < |codes| {
      var x := pile[i].value;
      var cs := cards[x := SetCode(cards[x], codes[i])];
      SetEachEffect(cs, pile, codes, i + 1);
      forall j | i < j < |codes|
        ensures pile[j] != Some(x)
      {
      }
    }
  }

  /** Renaming the cards of a container keeps where every card sits, so a valid board stays valid. */
  lemma SetEachKeepsValid(b: Board, k: Key, codes: seq<int>)
    requires Valid(b) && k in b.mat && Writable(b.cards, b.mat[k], |codes|, 0)
    ensures SetEach(b.cards, b.mat[k], codes, 0).Ok? && Valid(Board(SetEach(b.cards, b.mat[k], codes, 0).value, b.mat))
  {
    var pile := b.mat[k];
    PileDistinct(b, k);
    SetEachEffect(b.cards, pile, codes, 0);
    var r := SetEach(b.cards, pile, codes, 0).value;
    forall y | 0 <= y < |b.cards|
      ensures Kept(b.cards[y], r[y])
    {
      if j :| 0 <= j < |codes| && pile[j] == Some(y) {
      }
    }
    KeptValid(b, r);
  }

  /**
   * MSG_SHUFFLE_DECK fails only for a player without containers; then every
   * card of the deck has code 0 and is dirty, no other card changes and the
   * board stays valid.
   */
  lemma ShuffleDeckEffect(b: Board, player: nat)
    requires Valid(b)
    ensures ShuffleDeck(b, player).Ok? <==> player < 2
    ensures ShuffleDeck(b, player).Ok? ==>
      var deck := b.mat[Key(player, DECK)]; var r := ShuffleDeck(b, player).value;
      Valid(r) && r.mat == b.mat && |r.cards| == |b.cards|
      && (forall j | 0 <= j < |deck| :: deck[j].Some? && deck[j].value < |b.cards|
            && r.cards[deck[j].value] == SetCode(b.cards[deck[j].value], 0))
      && (forall y | 0 <= y < |b.cards| && Some(y) !in deck :: r.cards[y] == b.cards[y])
  {
    var k := Key(player, DECK);
    LocateMeaning(b.mat, player, DECK);
    if player < 2 {
      ShapedKeys(b.mat, k);
      var deck := b.mat[k];
      PileFilled(b, k);
      PileDistinct(b, k);
      SetEachKeepsValid(b, k, Zeros(|deck|));
      SetEachEffect(b.cards, deck, Zeros(|deck|), 0);
    }
  }

  /**
   * MSG_SHUFFLE_HAND fails exactly for a player without containers or more
   * codes than cards in the hand; otherwise the `j`-th card of the hand has
   * the `j`-th code and is dirty, no other card changes and the board stays
   * valid.
   */
  lemma ShuffleHandEffect(b: Board, player: nat, codes: seq<int>)
    requires Valid(b)
    ensures ShuffleHand(b, player, codes).Ok? <==> player < 2 && |codes| <= |b.mat[Key(player, HAND)]|
    ensures ShuffleHand(b, player, codes).Ok? ==>
      var hand := b.mat[Key(player, HAND)]; var r := ShuffleHand(b, player, codes).value;
      Valid(r) && r.mat == b.mat && |r.cards| == |b.cards|
      && (forall j | 0 <= j < |codes| :: hand[j].Some? && hand[j].value < |b.cards|
            && r.cards[hand[j].value] == SetCode(b.cards[hand[j].value], codes[j]))
      && (forall y | 0 <= y < |b.cards| && (forall j | 0 <= j < |codes| :: hand[j] != Some(y)) :: r.cards[y] == b.cards[y])
  {
    var k := Key(player, HAND);
    LocateMeaning(b.mat, player, HAND);
    if player < 2 {
      ShapedKeys(b.mat, k);
      var hand := b.mat[k];
      PileFilled(b, k);
      SetEachOk(b.cards, hand, codes, 0);
      if |codes| <= |hand| {
        PileDistinct(b, k);
        SetEachKeepsValid(b, k, codes);
        SetEachEffect(b.cards, hand, codes, 0);
      }
    }
  }

  // ---------------------------------------------------------------- texts

  /** `onHintMessage(text)`: a rendered text becomes a hint, a failed rendering is the error. */
  function Tell(d: Duel, text: Result<string>): (r: Result<Step>)
    ensures r.Ok? <==> text.Ok?
    ensures r.Ok? ==> r.value == Step(d, [Hinted(text.value)])
  {
    match text
    case Err(e) => Err(e)
    case Ok(s) => Ok(Step(d, [Hinted(s)]))
  }

  /** `onHintMessage(_render('system', 1511, name))` for a computed name. */
  function Named(t: Templates, d: Duel, name: Result<string>): Result<Step>
  {
    match name
    case Err(e) => Err(e)
    case Ok(n) => Tell(d, Render(t, 1511, [ArgStr(n)]))
  }

  /**
   * MSG_HINT. An event hint becomes `hints.event`; a message, a selected
   * option, a race, an attribute or a known card becomes a hint text; card
   * and effect hints only highlight the card, an unknown card is skipped,
   * and the other kinds are ignored.
   */
  function Hint(t: Templates, q: Query, d: Duel, kind: HintKind, data: int): Result<Step>
  {
    match kind
    case HintEvent =>
      (match Render(t, data, [])
       case Err(e) => Err(e)
       case Ok(s) => Ok(Step(d.(hintEvent := s), [])))
    case HintMessage => Tell(d, SystemOrDesc(t, q, data))
    case HintOpSelected =>
      (match SystemOrDesc(t, q, data)
       case Err(e) => Err(e)
       case Ok(desc) => Tell(d, Render(t, 1510, [ArgStr(desc)])))
    case HintRace => Named(t, d, FormatRace(t, data))
    case HintAttrib => Named(t, d, FormatAttribute(t, data))
    case HintCode => if data !in q then Ok(Step(d, [])) else Tell(d, Render(t, 1511, [ArgStr(q[data].name)]))
    case _ => Ok(Step(d, []))
  }

  /** The template announcing a summon in progress. */
  function SummoningTemplate(kind: SummonKind): int
  {
    match kind
    case NormalSummon => 1603
    case SpecialSummon => 1605
    case FlipSummon => 1607
  }

  /** The template announcing a completed summon. */
  function SummonedTemplate(kind: SummonKind): int
  {
    match kind
    case NormalSummon => 1604
    case SpecialSummon => 1606
    case FlipSummon => 1608
  }

  /** MSG_NEW_TURN: `turn++` (a `NaN` counter stays `NaN`) and the turn player is recorded. */
  function NewTurn(d: Duel, player: nat): Duel
  {
    d.(turn := NextTurn(d.turn), turnPlayer := Some(player))
  }

  /** MSG_CHAINING: the card at the chain's place, or `undefined` for an empty overlay slot, becomes the chain target. */
  function Chaining(d: Duel, at: Target): Result<Step>
  {
    match At(d.board, at.controller, at.location, at.sequence, Some(at.subsequence))
    case Err(e) => Err(e)
    case Ok(x) => Ok(Step(d.(chainTarget := x), []))
  }

  /** MSG_CHAINED: the chain target is named in a hint and cleared; without one nothing happens. */
  function Chained(t: Templates, q: Query, d: Duel): Result<Step>
  {
    match d.chainTarget
    case None => Ok(Step(d, []))
    case Some(x) =>
      if x >= |d.board.cards| then Err(TYPE_ERROR)
      else Tell(d.(chainTarget := None), Render(t, 1609, [NameArg(q, d.board.cards[x].current.code)]))
  }

  /** The log line of one MSG_BECOME_TARGET entry naming card `x`. */
  function TargetLine(t: Templates, q: Query, b: Board, c: Target, x: CardId): Result<Note>
    requires x < |b.cards|
  {
    match LocationText(t, c.location, c.sequence)
    case Err(e) => Err(e)
    case Ok(place) =>
      match Render(t, 1610, [NameArg(q, b.cards[x].current.code), ArgStr(place), ArgNum(c.sequence + 1)])
      case Err(e) => Err(e)
      case Ok(s) => Ok(Logged(s))
  }

  /** MSG_BECOME_TARGET from entry `i` on: each target is looked up and logged; a missing one is a TypeError. */
  function Targeted(t: Templates, q: Query, b: Board, targets: seq<Target>, i: nat): Result<seq<Note>>
    decreases |targets| - i
  {
    if i >= |targets| then Ok([])
    else
      var c := targets[i];
      match At(b, c.controller, c.location, c.sequence, Some(c.subsequence))
      case Err(e) => Err(e)
      case Ok(x) =>
        if x.None? || x.value >= |b.cards| then Err(TYPE_ERROR)
        else match TargetLine(t, q, b, c, x.value)
          case Err(e) => Err(e)
          case Ok(line) =>
            match Targeted(t, q, b, targets, i + 1)
            case Err(e) => Err(e)
            case Ok(rest) => Ok([line] + rest)
  }

  // ------------------------------------------------------------- dispatch

  /** A message that only changes the board. */
  function WithBoard(d: Duel, r: Result<Board>): Result<Step>
  {
    match r
    case Err(e) => Err(e)
    case Ok(b) => Ok(Step(d.(board := b), []))
  }

  /** A message that changes the board and logs. */
  function WithNotes(d: Duel, r: Result<(Board, seq<Note>)>): Result<Step>
  {
    match r
    case Err(e) => Err(e)
    case Ok(bn) => Ok(Step(d.(board := bn.0), bn.1))
  }

  /** The line logged for MSG_SET, MSG_SUMMONING (naming the card) and MSG_SUMMONED. */
  function Announcement(t: Templates, q: Query, msg: Message): Result<string>
    requires msg.MsgSet? || msg.MsgSummoning? || msg.MsgSummoned?
  {
    match msg
    case MsgSet => Render(t, 1601, [])
    case MsgSummoning(kind, code) => Render(t, SummoningTemplate(kind), [NameArg(q, code)])
    case MsgSummoned(kind) => Render(t, SummonedTemplate(kind), [])
  }

  /** The big switch of `handle`; the messages without a case, and those whose case is a placeholder, change nothing. */
  function Dispatch(t: Templates, q: Query, d: Duel, msg: Message): Result<Step>
  {
    match msg
    case MsgStart(startLP, counts) =>
      (match Init(d, startLP, counts)
       case Err(e) => Err(e)
       case Ok(d1) => Ok(Step(d1, [])))
    case MsgDraw(player, codes) => WithBoard(d, Draw(d.board, player, codes))
    case MsgSwap(first, second) => WithBoard(d, Swap(d.board, first, second))
    case MsgMove(code, previous, current) => WithBoard(d, Move(d.board, code, previous, current))
    case MsgPosChange(_, controller, location, sequence, _, position) =>
      WithBoard(d, PosChange(d.board, controller, location, sequence, position))
    case MsgHint(kind, _, data) => Hint(t, q, d, kind, data)
    case MsgConfirmDeckTop(player, codes) => WithNotes(d, ConfirmDeckTop(t, q, d.board, player, codes))
    case MsgConfirmExtraTop(player, codes) => WithNotes(d, ConfirmExtraTop(t, q, d.board, player, codes))
    case MsgShuffleDeck(player) => WithBoard(d, ShuffleDeck(d.board, player))
    case MsgShuffleHand(player, codes) => WithBoard(d, ShuffleHand(d.board, player, codes))
    case MsgNewTurn(player) => Ok(Step(NewTurn(d, player), []))
    case MsgSet => Tell(d, Announcement(t, q, msg))
    case MsgSummoning(_, _) => Tell(d, Announcement(t, q, msg))
    case MsgSummoned(_) => Tell(d, Announcement(t, q, msg))
    case MsgChaining(_, at) => Chaining(d, at)
    case MsgChained => Chained(t, q, d)
    case MsgBecomeTarget(targets) =>
      (match Targeted(t, q, d.board, targets, 0)
       case Err(e) => Err(e)
       case Ok(notes) => Ok(Step(d, notes)))
    case _ => Ok(Step(d, []))
  }

  /** `handle(msg)`: cleanup, record the message, then dispatch on its type. */
  function Handle(t: Templates, q: Query, d: Duel, msg: Message): Result<Step>
  {
    Dispatch(t, q, d.(board := Cleanup(d.board), message := Some(msg)), msg)
  }

  // ------------------------------------------------------------ invariant

  /** The client's invariant: a valid board, and a chain target, when there is one, that is a card of the arena. */
  ghost predicate DuelValid(d: Duel)
  {
    Valid(d.board) && (d.chainTarget.Some? ==> d.chainTarget.value < |d.board.cards|)
  }

  /** A lookup that finds a card finds a card of the arena: the occupant of a slot or one of its materials. */
  lemma AtInArena(b: Board, controller: nat, location: Location, sequence: nat, subsequence: Option<nat>)
    requires Valid(b)
    ensures var r := At(b, controller, location, sequence, subsequence); r.Ok? && r.value.Some? ==> r.value.value < |b.cards|
  {
    var r := At(b, controller, location, sequence, subsequence);
    if r.Ok? && r.value.Some? {
      var k := Key(controller, location & 0x7F);
      Occupant(b, k, sequence);
      if HasBits(location, OVERLAY) {
        assert MaterialOk(b, b.mat[k][sequence].value, subsequence.value);
      }
    }
  }

  /** A swap moves cards between slots and creates none. */
  lemma SwapArena(b: Board, first: Coord, second: Coord)
    ensures Swap(b, first, second).Ok? ==> |Swap(b, first, second).value.cards| == |b.cards|
  {
  }

  /** A confirmation of the deck keeps the containers, the arena and validity. */
  lemma ConfirmDeckTopKeepsValid(t: Templates, q: Query, b: Board, player: nat, codes: seq<int>)
    requires Valid(b)
    ensures ConfirmDeckTop(t, q, b, player, codes).Ok? ==>
      var r := ConfirmDeckTop(t, q, b, player, codes).value.0; Valid(r) && r.mat == b.mat && |r.cards| == |b.cards|
  {
    if ConfirmDeckTop(t, q, b, player, codes).Ok? {
      var k := Key(player, DECK);
      RevealKeepsValid(q, b, k, |b.mat[k]| - 1, codes);
    }
  }

  /** A confirmation of the extra deck, from either starting index, keeps the containers, the arena and validity. */
  lemma ExtraTopKeepsValid(t: Templates, q: Query, b: Board, player: nat, codes: seq<int>, asWritten: bool)
    requires Valid(b)
    ensures ExtraTop(t, q, b, player, codes, asWritten).Ok? ==>
      var r := ExtraTop(t, q, b, player, codes, asWritten).value.0; Valid(r) && r.mat == b.mat && |r.cards| == |b.cards|
  {
    if ExtraTop(t, q, b, player, codes, asWritten).Ok? {
      var k := Key(player, EXTRA);
      var pile := b.mat[k];
      var poff := FirstFaceUp(b.cards, pile, 0).value;
      var base := if asWritten then ExtraTopBaseAsWritten(|pile|, poff) else ExtraTopBase(|pile|, poff);
      RevealKeepsValid(q, b, k, base, codes);
    }
  }

  /** The decks `init` deals into for the players the message counts, empty as on a new duel mat. */
  predicate EmptyDecks(b: Board, counts: seq<DeckCount>)
  {
    forall p | 0 <= p < |counts| && p < 2 ::
      Key(p, DECK) in b.mat && b.mat[Key(p, DECK)] == [] && Key(p, EXTRA) in b.mat && b.mat[Key(p, EXTRA)] == []
  }

  /**
   * MSG_START on empty decks: it fails exactly for more than two players.
   * Otherwise each player is dealt the counted new cards, the life points are
   * the message's, the counters are 0, the rest of the duel is kept and the
   * invariant holds.
   */
  lemma StartEffect(d: Duel, startLP: seq<int>, counts: seq<DeckCount>)
    requires DuelValid(d) && EmptyDecks(d.board, counts)
    ensures Init(d, startLP, counts).Ok? <==> |counts| <= 2
    ensures Init(d, startLP, counts).Ok? ==> var r := Init(d, startLP, counts).value;
      DuelValid(r) && r.turn == Some(0) && r.turnPlayer == Some(0) && r.phase == Some(0)
      && |r.lp| == |startLP| && (forall i | 0 <= i < |startLP| :: r.lp[i] == Some(startLP[i]))
      && r.chainTarget == d.chainTarget && r.hintEvent == d.hintEvent && r.message == d.message
      && |d.board.cards| <= |r.board.cards| && r.board.cards[..|d.board.cards|] == d.board.cards
      && (forall p | 0 <= p < |counts| :: Dealt(r.board, p, DECK, counts[p].mainDeck) && Dealt(r.board, p, EXTRA, counts[p].extraDeck))
  {
    if |counts| <= 2 {
      InitFromEffect(d.board, counts, 0);
    } else {
      InitFromThirdPlayer(d.board, counts, 0);
    }
  }

  /**
   * MSG_HINT changes no part of the duel but `hints.event`, and that only for
   * an event hint, which reports nothing. A message, selected-option, race or
   * attribute hint reports one hint text; a card-name hint reports one
   * exactly for a card the database knows; the other kinds report nothing
   * and cannot fail.
   */
  lemma HintOutcome(t: Templates, q: Query, d: Duel, kind: HintKind, data: int)
    ensures Hint(t, q, d, kind, data).Ok? ==> var r := Hint(t, q, d, kind, data).value;
      r.duel == d.(hintEvent := r.duel.hintEvent)
      && (kind != HintEvent ==> r.duel == d)
      && (kind == HintEvent ==> r.notes == [] && Ok(r.duel.hintEvent) == Render(t, data, []))
      && (kind in {HintMessage, HintOpSelected, HintRace, HintAttrib} ==> |r.notes| == 1 && r.notes[0].Hinted?)
      && (kind == HintCode ==> |r.notes| == (if data in q then 1 else 0) && (data in q ==> r.notes[0].Hinted?))
    ensures kind == HintMessage ==> (Hint(t, q, d, kind, data).Ok? <==> SystemOrDesc(t, q, data).Ok?)
    ensures kind in {HintSelectMsg, HintEffect, HintNumber, HintCard, HintZone} || (kind == HintCode && data !in q) ==>
      Hint(t, q, d, kind, data) == Ok(Step(d, []))
  {
    match kind
    case HintRace => {}
    case HintAttrib => {}
    case _ => {}
  }

  /** MSG_CHAINING then MSG_CHAINED: the card the chain names is the one the hint names, and the target is cleared again. */
  lemma ChainRoundTrip(t: Templates, q: Query, d: Duel, at: Target)
    requires DuelValid(d)
    ensures Chaining(d, at).Ok? ==> DuelValid(Chaining(d, at).value.duel)
    ensures Chaining(d, at).Ok? && Chaining(d, at).value.duel.chainTarget.Some? ==>
      var d1 := Chaining(d, at).value.duel; var x := d1.chainTarget.value;
      x < |d.board.cards| && x == At(d.board, at.controller, at.location, at.sequence, Some(at.subsequence)).value.value
      && (Chained(t, q, d1).Ok? <==> Render(t, 1609, [NameArg(q, d.board.cards[x].current.code)]).Ok?)
      && (Chained(t, q, d1).Ok? ==>
            Chained(t, q, d1).value.duel == d1.(chainTarget := None)
            && Chained(t, q, d1).value.notes == [Hinted(Render(t, 1609, [NameArg(q, d.board.cards[x].current.code)]).value)])
  {
    AtInArena(d.board, at.controller, at.location, at.sequence, Some(at.subsequence));
  }

  /**
   * MSG_CHAINED with no chain target reports nothing and changes nothing;
   * with one, it reports at most one hint and clears the target.
   */
  lemma ChainedEffect(t: Templates, q: Query, d: Duel)
    requires DuelValid(d)
    ensures d.chainTarget.None? ==> Chained(t, q, d) == Ok(Step(d, []))
    ensures Chained(t, q, d).Ok? && d.chainTarget.Some? ==>
      Chained(t, q, d).value.duel == d.(chainTarget := None) && |Chained(t, q, d).value.notes| == 1
  {
  }

  /** The place a MSG_BECOME_TARGET entry names holds a card of the arena. */
  predicate Resolves(b: Board, c: Target)
  {
    var r := At(b, c.controller, c.location, c.sequence, Some(c.subsequence));
    r.Ok? && r.value.Some? && r.value.value < |b.cards|
  }

  /** The card a resolving entry names. */
  function Resolved(b: Board, c: Target): (x: CardId)
    requires Resolves(b, c)
    ensures x < |b.cards|
  {
    At(b, c.controller, c.location, c.sequence, Some(c.subsequence)).value.value
  }

  /** MSG_BECOME_TARGET fails when an entry from `i` on names a place without a card. */
  lemma {:induction false} TargetedFails(t: Templates, q: Query, b: Board, targets: seq<Target>, i: nat, j: nat)
    requires i <= j < |targets| && !Resolves(b, targets[j])
    ensures Targeted(t, q, b, targets, i).Err?
    decreases j - i
  {
    if i < j {
      TargetedFails(t, q, b, targets, i + 1, j);
    }
  }

  /**
   * MSG_BECOME_TARGET from entry `i` on, when it succeeds: every entry
   * resolved, and the `j`-th log line is the line of the `j`-th entry, one
   * per entry, in order.
   */
  lemma {:induction false} TargetedLines(t: Templates, q: Query, b: Board, targets: seq<Target>, i: nat)
    requires i <= |targets| && Targeted(t, q, b, targets, i).Ok?
    ensures var notes := Targeted(t, q, b, targets, i).value;
      |notes| == |targets| - i
      && forall j | i <= j < |targets| :: Resolves(b, targets[j]) && TargetLine(t, q, b, targets[j], Resolved(b, targets[j])) == Ok(notes[j - i])
    decreases |targets| - i
  {
    if i < |targets| {
      TargetedStep(t, q, b, targets, i);
      TargetedLines(t, q, b, targets, i + 1);
      var notes := Targeted(t, q, b, targets, i).value;
      var rest := Targeted(t, q, b, targets, i + 1).value;
      forall j | i <= j < |targets|
        ensures Resolves(b, targets[j]) && TargetLine(t, q, b, targets[j], Resolved(b, targets[j])) == Ok(notes[j - i])
      {
        if j > i {
          ConsIndex(notes[0], rest, j - i);
        }
      }
    }
  }

  /** One turn of MSG_BECOME_TARGET's loop: entry `i` resolves and is named first, then the rest follow. */
  lemma TargetedStep(t: Templates, q: Query, b: Board, targets: seq<Target>, i: nat)
    requires i < |targets| && Targeted(t, q, b, targets, i).Ok?
    ensures Resolves(b, targets[i]) && TargetLine(t, q, b, targets[i], Resolved(b, targets[i])).Ok?
    ensures Targeted(t, q, b, targets, i + 1).Ok?
    ensures Targeted(t, q, b, targets, i).value
      == [TargetLine(t, q, b, targets[i], Resolved(b, targets[i])).value] + Targeted(t, q, b, targets, i + 1).value
  {
  }

  /** A message that only changes the board keeps the invariant when its board is valid and the arena does not shrink. */
  lemma WithBoardKeepsValid(d: Duel, r: Result<Board>)
    requires DuelValid(d)
    requires r.Ok? ==> Valid(r.value) && |d.board.cards| <= |r.value.cards|
    ensures WithBoard(d, r).Ok? ==> DuelValid(WithBoard(d, r).value.duel)
  {
  }

  /** A message that changes the board and logs keeps the invariant under the same conditions. */
  lemma WithNotesKeepsValid(d: Duel, r: Result<(Board, seq<Note>)>)
    requires DuelValid(d)
    requires r.Ok? ==> Valid(r.value.0) && |d.board.cards| <= |r.value.0.cards|
    ensures WithNotes(d, r).Ok? ==> DuelValid(WithNotes(d, r).value.duel)
  {
  }

  /** The switch hands each board-changing message to its operation. */
  lemma DispatchBoard(t: Templates, q: Query, d: Duel, msg: Message) returns (r: Result<Board>)
    requires msg.MsgDraw? || msg.MsgSwap? || msg.MsgMove? || msg.MsgPosChange? || msg.MsgShuffleDeck? || msg.MsgShuffleHand?
    ensures Dispatch(t, q, d, msg) == WithBoard(d, r)
    ensures msg.MsgDraw? ==> r == Draw(d.board, msg.player, msg.cards)
    ensures msg.MsgSwap? ==> r == Swap(d.board, msg.first, msg.second)
    ensures msg.MsgMove? ==> r == Move(d.board, msg.code, msg.previous, msg.current)
    ensures msg.MsgPosChange? ==> r == PosChange(d.board, msg.currentController, msg.currentLocation, msg.currentSequence, msg.currentPosition)
    ensures msg.MsgShuffleDeck? ==> r == ShuffleDeck(d.board, msg.player)
    ensures msg.MsgShuffleHand? ==> r == ShuffleHand(d.board, msg.player, msg.cards)
  {
    var b := d.board;
    match msg
    case MsgDraw(player, codes) => r := Draw(b, player, codes);
    case MsgSwap(first, second) => r := Swap(b, first, second);
    case MsgMove(code, previous, current) => r := Move(b, code, previous, current);
    case MsgPosChange(_, controller, location, sequence, _, position) => r := PosChange(b, controller, location, sequence, position);
    case MsgShuffleDeck(player) => r := ShuffleDeck(b, player);
    case MsgShuffleHand(player, codes) => r := ShuffleHand(b, player, codes);
  }

  /** The switch hands each message about the chain to its case. */
  lemma DispatchChain(t: Templates, q: Query, d: Duel, msg: Message) returns (f: Result<Step>)
    requires msg.MsgChaining? || msg.MsgChained? || msg.MsgBecomeTarget?
    ensures Dispatch(t, q, d, msg) == f
    ensures msg.MsgChaining? ==> f == Chaining(d, msg.at)
    ensures msg.MsgChained? ==> f == Chained(t, q, d)
    ensures msg.MsgBecomeTarget? ==> var g := Targeted(t, q, d.board, msg.targets, 0);
      (f.Ok? <==> g.Ok?) && (f.Ok? ==> f.value == Step(d, g.value)) && (f.Err? ==> f.error == g.error)
  {
    f := Dispatch(t, q, d, msg);
  }

  /** The messages that change only the board keep the invariant. */
  lemma BoardMessageKeepsValid(t: Templates, q: Query, d: Duel, msg: Message)
    requires DuelValid(d)
    requires msg.MsgDraw? || msg.MsgSwap? || msg.MsgMove? || msg.MsgPosChange? || msg.MsgShuffleDeck? || msg.MsgShuffleHand?
    ensures Dispatch(t, q, d, msg).Ok? ==> DuelValid(Dispatch(t, q, d, msg).value.duel)
  {
    var b := d.board;
    var r := DispatchBoard(t, q, d, msg);
    if msg.MsgDraw? {
      DrawEffect(b, msg.player, msg.cards);
    } else if msg.MsgSwap? {
      SwapKeepsValid(b, msg.first, msg.second);
      SwapArena(b, msg.first, msg.second);
    } else if msg.MsgMove? {
      MoveKeepsValid(b, msg.code, msg.previous, msg.current);
      MoveKeepsArena(b, msg.code, msg.previous, msg.current);
    } else if msg.MsgPosChange? {
      PosChangeEffect(b, msg.currentController, msg.currentLocation, msg.currentSequence, msg.currentPosition);
    } else if msg.MsgShuffleDeck? {
      ShuffleDeckEffect(b, msg.player);
    } else {
      ShuffleHandEffect(b, msg.player, msg.cards);
    }
    WithBoardKeepsValid(d, r);
  }

  /** The switch hands each confirmation to its operation. */
  lemma DispatchNotes(t: Templates, q: Query, d: Duel, msg: Message) returns (r: Result<(Board, seq<Note>)>)
    requires msg.MsgConfirmDeckTop? || msg.MsgConfirmExtraTop?
    ensures Dispatch(t, q, d, msg) == WithNotes(d, r)
    ensures msg.MsgConfirmDeckTop? ==> r == ConfirmDeckTop(t, q, d.board, msg.player, msg.cards)
    ensures msg.MsgConfirmExtraTop? ==> r == ExtraTop(t, q, d.board, msg.player, msg.cards, false)
  {
    if msg.MsgConfirmDeckTop? {
      r := ConfirmDeckTop(t, q, d.board, msg.player, msg.cards);
    } else {
      r := ExtraTop(t, q, d.board, msg.player, msg.cards, false);
    }
  }

  /** The confirmations keep the invariant. */
  lemma NotesMessageKeepsValid(t: Templates, q: Query, d: Duel, msg: Message)
    requires DuelValid(d)
    requires msg.MsgConfirmDeckTop? || msg.MsgConfirmExtraTop?
    ensures Dispatch(t, q, d, msg).Ok? ==> DuelValid(Dispatch(t, q, d, msg).value.duel)
  {
    var r := DispatchNotes(t, q, d, msg);
    if msg.MsgConfirmDeckTop? {
      ConfirmDeckTopKeepsValid(t, q, d.board, msg.player, msg.cards);
    } else {
      ExtraTopKeepsValid(t, q, d.board, msg.player, msg.cards, false);
    }
    WithNotesKeepsValid(d, r);
  }

  /** The other messages leave the board alone and keep the invariant; MSG_START needs the decks it deals into empty. */
  lemma OtherMessageKeepsValid(t: Templates, q: Query, d: Duel, msg: Message)
    requires DuelValid(d)
    requires msg.MsgStart? ==> EmptyDecks(d.board, msg.deckCount)
    requires !(msg.MsgDraw? || msg.MsgSwap? || msg.MsgMove? || msg.MsgPosChange? || msg.MsgShuffleDeck? || msg.MsgShuffleHand?)
    requires !(msg.MsgConfirmDeckTop? || msg.MsgConfirmExtraTop?)
    ensures Dispatch(t, q, d, msg).Ok? ==> DuelValid(Dispatch(t, q, d, msg).value.duel)
  {
    match msg
    case MsgStart(startLP, counts) => StartEffect(d, startLP, counts);
    case MsgHint(kind, _, data) => HintOutcome(t, q, d, kind, data);
    case MsgChaining(_, at) => ChainRoundTrip(t, q, d, at);
    case _ =>
  }

  /** One step of the switch keeps the invariant; MSG_START needs the decks it deals into empty. */
  lemma DispatchKeepsValid(t: Templates, q: Query, d: Duel, msg: Message)
    requires DuelValid(d)
    requires msg.MsgStart? ==> EmptyDecks(d.board, msg.deckCount)
    ensures Dispatch(t, q, d, msg).Ok? ==> DuelValid(Dispatch(t, q, d, msg).value.duel)
  {
    if msg.MsgDraw? || msg.MsgSwap? || msg.MsgMove? || msg.MsgPosChange? || msg.MsgShuffleDeck? || msg.MsgShuffleHand? {
      BoardMessageKeepsValid(t, q, d, msg);
    } else if msg.MsgConfirmDeckTop? || msg.MsgConfirmExtraTop? {
      NotesMessageKeepsValid(t, q, d, msg);
    } else {
      OtherMessageKeepsValid(t, q, d, msg);
    }
  }

  /**
   * `handle` keeps the invariant for every message, provided a MSG_START
   * finds the decks it deals into empty, as on a new duel mat.
   */
  lemma HandleKeepsValid(t: Templates, q: Query, d: Duel, msg: Message)
    requires DuelValid(d)
    requires msg.MsgStart? ==> EmptyDecks(d.board, msg.deckCount)
    ensures Handle(t, q, d, msg).Ok? ==> DuelValid(Handle(t, q, d, msg).value.duel)
  {
    CleanupMeaning(d.board);
    DispatchKeepsValid(t, q, d.(board := Cleanup(d.board), message := Some(msg)), msg);
  }

  /** The turn counter after MSG_NEW_TURN: one more, a `NaN` staying `NaN`. */
  function NextTurn(turn: Option<int>): Option<int>
  {
    if turn.Some? then Some(turn.value + 1) else None
  }

  /**
   * The counters after one step of the switch: MSG_START resets them and
   * sets the life points, MSG_NEW_TURN counts a turn and records its player,
   * and no other message touches them or the recorded message.
   */
  lemma DispatchCounters(t: Templates, q: Query, d: Duel, msg: Message)
    ensures Dispatch(t, q, d, msg).Ok? ==> var r := Dispatch(t, q, d, msg).value.duel;
      r.message == d.message
      && r.phase == (if msg.MsgStart? then Some(0) else d.phase)
      && r.turn == (if msg.MsgStart? then Some(0) else if msg.MsgNewTurn? then NextTurn(d.turn) else d.turn)
      && r.turnPlayer == (if msg.MsgStart? then Some(0) else if msg.MsgNewTurn? then Some(msg.player) else d.turnPlayer)
      && r.lp == (if msg.MsgStart? then Somes(msg.startLP) else d.lp)
  {
    if msg.MsgDraw? || msg.MsgSwap? || msg.MsgMove? || msg.MsgPosChange? || msg.MsgShuffleDeck? || msg.MsgShuffleHand? {
      var r := DispatchBoard(t, q, d, msg);
    } else if msg.MsgConfirmDeckTop? || msg.MsgConfirmExtraTop? {
      var r := DispatchNotes(t, q, d, msg);
    } else if msg.MsgHint? {
      HintOutcome(t, q, d, msg.hint, msg.data);
    }
  }

  /** `handle` records the message it handles; only MSG_START and MSG_NEW_TURN change the counters. */
  lemma HandleCounters(t: Templates, q: Query, d: Duel, msg: Message)
    ensures Handle(t, q, d, msg).Ok? ==> var r := Handle(t, q, d, msg).value.duel;
      r.message == Some(msg)
      && r.phase == (if msg.MsgStart? then Some(0) else d.phase)
      && r.turn == (if msg.MsgStart? then Some(0) else if msg.MsgNewTurn? then NextTurn(d.turn) else d.turn)
      && r.turnPlayer == (if msg.MsgStart? then Some(0) else if msg.MsgNewTurn? then Some(msg.player) else d.turnPlayer)
      && r.lp == (if msg.MsgStart? then Somes(msg.startLP) else d.lp)
  {
    DispatchCounters(t, q, d.(board := Cleanup(d.board), message := Some(msg)), msg);
  }

  // ------------------------------------------------------------- a duel

  /** Messages handled one after another; the texts of all steps in order, the first error ending the run. */
  function HandleAll(t: Templates, q: Query, d: Duel, msgs: seq<Message>): Result<Step>
    decreases |msgs|
  {
    if msgs == [] then Ok(Step(d, []))
    else
      match Handle(t, q, d, msgs[0])
      case Err(e) => Err(e)
      case Ok(s) =>
        match HandleAll(t, q, s.duel, msgs[1..])
        case Err(e) => Err(e)
        case Ok(rest) => Ok(Step(rest.duel, s.notes + rest.notes))
  }

  /** The number of MSG_NEW_TURN messages. */
  function NewTurns(msgs: seq<Message>): nat
  {
    if msgs == [] then 0 else (if msgs[0].MsgNewTurn? then 1 else 0) + NewTurns(msgs[1..])
  }

  /** No MSG_START: the messages of a duel once it has started. */
  predicate Started(msgs: seq<Message>)
  {
    forall i | 0 <= i < |msgs| :: !msgs[i].MsgStart?
  }

  /** The invariant holds after any run of messages of a started duel. */
  lemma {:induction false} RunKeepsValid(t: Templates, q: Query, d: Duel, msgs: seq<Message>)
    requires DuelValid(d) && Started(msgs)
    ensures HandleAll(t, q, d, msgs).Ok? ==> DuelValid(HandleAll(t, q, d, msgs).value.duel)
    decreases |msgs|
  {
    if msgs != [] && HandleAll(t, q, d, msgs).Ok? {
      HandleKeepsValid(t, q, d, msgs[0]);
      RunKeepsValid(t, q, Handle(t, q, d, msgs[0]).value.duel, msgs[1..]);
    }
  }

  /**
   * Along a run of a started duel the turn counter counts the MSG_NEW_TURN
   * messages (and stays `NaN` when it started so), and the phase never
   * changes: MSG_NEW_PHASE is not handled.
   */
  lemma {:induction false} RunCountsTurns(t: Templates, q: Query, d: Duel, msgs: seq<Message>)
    requires Started(msgs)
    ensures HandleAll(t, q, d, msgs).Ok? ==> var r := HandleAll(t, q, d, msgs).value.duel;
      r.turn == (if d.turn.Some? then Some(d.turn.value + NewTurns(msgs)) else None) && r.phase == d.phase
    decreases |msgs|
  {
    if msgs != [] && HandleAll(t, q, d, msgs).Ok? {
      HandleCounters(t, q, d, msgs[0]);
      RunCountsTurns(t, q, Handle(t, q, d, msgs[0]).value.duel, msgs[1..]);
    }
  }

  /** A new duel mat is valid, with every container empty and no card. */
  lemma FreshValid()
    ensures DuelValid(FRESH)
    ensures forall counts: seq<DeckCount> :: EmptyDecks(FRESH.board, counts)
  {
    var b := FRESH.board;
    forall k, i | k in b.mat && 0 <= i < |b.mat[k]|
      ensures SlotOk(b, k, i)
    {
      assert b.mat[k] == [] || b.mat[k] == FIVE_HOLES;
    }
  }

  /** MSG_START on a new client, for at most two players, succeeds and leaves a valid duel at turn 0 and phase 0. */
  lemma StartFresh(t: Templates, q: Query, startLP: seq<int>, counts: seq<DeckCount>)
    requires |counts| <= 2
    ensures Handle(t, q, FRESH, MsgStart(startLP, counts)).Ok?
    ensures var d := Handle(t, q, FRESH, MsgStart(startLP, counts)).value.duel;
      DuelValid(d) && d.turn == Some(0) && d.phase == Some(0)
  {
    var start := MsgStart(startLP, counts);
    FreshValid();
    CleanupMeaning(FRESH.board);
    StartEffect(FRESH.(board := Cleanup(FRESH.board), message := Some(start)), startLP, counts);
    HandleCounters(t, q, FRESH, start);
    HandleKeepsValid(t, q, FRESH, start);
  }
}
