/**
 * The vocabulary of the ocgcore message protocol that the modelled code reads:
 * the location and position bit constants and the message records, reduced to
 * the fields the client, the replay planner and the host driver look at.
 * The constants are the ocgcore values; locations and positions travel as
 * single bytes.
 */
module Protocol {
  type Location = bv8
  type Position = bv8

  const DECK: Location := 0x01
  const HAND: Location := 0x02
  const MZONE: Location := 0x04
  const SZONE: Location := 0x08
  const GRAVE: Location := 0x10
  const REMOVED: Location := 0x20
  const EXTRA: Location := 0x40
  const OVERLAY: Location := 0x80

  const FACEUP_ATTACK: Position := 0x1
  const FACEDOWN_ATTACK: Position := 0x2
  const FACEUP_DEFENSE: Position := 0x4
  const FACEDOWN_DEFENSE: Position := 0x8
  const FACEUP: Position := 0x5
  const FACEDOWN: Position := 0xA

  /** Message type bytes of the two synthetic refresh messages. */
  const MSG_UPDATE_DATA: nat := 6
  const MSG_UPDATE_CARD: nat := 7

  /** `hasBits(i, pattern)`: some bit of `pattern` is set in `i`. */
  predicate HasBits(i: bv8, pattern: bv8)
  {
    i & pattern != 0
  }

  datatype DeckCount = DeckCount(mainDeck: nat, extraDeck: nat)

  /** A card coordinate: controller, location, sequence. */
  datatype Coord = Coord(controller: nat, location: Location, sequence: nat)

  /** A coordinate with an overlay subsequence (MSG_CHAINING, MSG_BECOME_TARGET). */
  datatype Target = Target(controller: nat, location: Location, sequence: nat, subsequence: nat)

  /**
   * One end of MSG_MOVE. The fourth byte is the card position, or the overlay
   * subsequence when the location carries the OVERLAY bit.
   */
  datatype LocInfo = LocInfo(controller: nat, location: Location, sequence: nat, posOrSubseq: bv8)

  datatype SummonKind = NormalSummon | SpecialSummon | FlipSummon

  datatype HintKind =
    | HintEvent | HintMessage | HintSelectMsg | HintOpSelected | HintEffect
    | HintRace | HintAttrib | HintCode | HintNumber | HintCard | HintZone

  datatype QuestionKind = SelectBattleCmd | SelectIdleCmd | SelectOther(kind: nat)

  datatype Message =
    | MsgStart(startLP: seq<int>, deckCount: seq<DeckCount>)
    | MsgDraw(player: nat, cards: seq<int>)
    | MsgSwap(first: Coord, second: Coord)
    | MsgMove(code: int, previous: LocInfo, current: LocInfo)
    | MsgPosChange(code: int, currentController: nat, currentLocation: Location,
                   currentSequence: nat, previousPosition: Position, currentPosition: Position)
    | MsgHint(hint: HintKind, player: nat, data: int)
    | MsgConfirmDeckTop(player: nat, cards: seq<int>)
    | MsgConfirmExtraTop(player: nat, cards: seq<int>)
    | MsgShuffleDeck(player: nat)
    | MsgShuffleHand(player: nat, cards: seq<int>)
    | MsgShuffleExtra(player: nat, cards: seq<int>)
    | MsgSwapGraveDeck(player: nat)
    | MsgReverseDeck
    | MsgDeckTop(player: nat, sequence: nat, code: int)
    | MsgShuffleSetCard
    | MsgNewTurn(player: nat)
    | MsgNewPhase(phase: nat)
    | MsgSet
    | MsgFieldDisabled
    | MsgSummoning(kind: SummonKind, code: int)
    | MsgSummoned(kind: SummonKind)
    | MsgChaining(code: int, at: Target)
    | MsgChained
    | MsgChainSolved
    | MsgChainEnd
    | MsgBecomeTarget(targets: seq<Target>)
    | MsgDamageStepStart
    | MsgTagSwap
    | MsgWin(player: nat, reason: nat)
    | MsgRetry
    | MsgUpdateData(player: nat, location: Location, payload: seq<bv8>)
    | MsgUpdateCard(player: nat, location: Location, sequence: nat, payload: seq<bv8>)
    | MsgQuestion(question: QuestionKind, player: nat)
    | MsgOther(msgtype: nat)

  /** `isQuestionMessage`: the message asks a player for a response. */
  predicate IsQuestion(m: Message)
  {
    m.MsgQuestion?
  }
}
