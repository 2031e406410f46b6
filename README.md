# ego duel core, modelled in Dafny

ego is a set of TypeScript packages (and one native Node.js binding) around
the ocgcore duel engine of the Yu-Gi-Oh! card game. This project models the
parts of it that hold the program's logic, and proves what they promise.

- **Duel client** (`packages/duel-client/src/index.ts`). The client mirrors the
  engine's board: a duel mat of per-player containers (deck, extra deck, hand,
  graveyard, banished pile, monster and spell/trap zones), and one transition
  per engine message. `DuelBoard` is the mat as a value: card objects live in
  an arena, containers hold card ids, and `Put`, `Remove` and `Renumber` are
  the insertion policy, the removal policy and the sequence renumbering.
  `DuelMove` is `_handleMove` in its six shapes, `DuelHandle` is `handle`
  (with the corrected MSG_CONFIRM_EXTRATOP of "## Findings"), and
  `DuelText` is the text the client renders. `DuelClient.DuelState` is the
  same client as an object whose fields the methods update in place, with
  the loops of the source. Each of its methods is proved to leave the state
  that the value model describes. The central invariant is `DuelBoard.Valid`:
  every card in a container records that container and its index there (what
  `_validate` checks), and every overlay material records its carrier and its
  index in the carrier's list. Every message handler is proved to keep it.
- **Replay container** (`packages/data-loader/src/replay.ts`). `ReplayReader`
  has the byte cursor `BufferReader`, the header, name, parameter and deck
  sections, the LZMA-alone header synthesis and the response stream. Each
  section is proved to read back what its encoder lays out.
- **Replay inflater** (`packages/duel-host/src/replay.ts`, `ReplayPlan`): the
  board-refresh queries planned after each message, and the wrapped output.
- **Host driver** (`packages/duel-host/src/driver.ts`, `HostDriver`;
  `packages/duel-host/src/message.ts`, `HostMessages`): the pull-based
  message queue, the setup order of the engine calls, the question/response
  handshake, and the awaiting-response test.
- **Replay consumers** (`Consumers`): the `laminate` loop and
  `Validator.validate`, against an abstract driver.
- **Small pieces**:
  - the strings.conf templates, `flatten` and the two hex dumps (`Common`,
    `Misc`, `HexDump`, with the ECMAScript string helpers in `JsText`);
  - the card-database row normalisation `mkRecord` (`CardDb`);
  - `extractCodelike` (`Codelike`);
  - the 2D board geometry (`Board`);
  - the duel-id table, the card and script callbacks and the response check
    of the native binding (`CoreApi`).

`Protocol` holds the message records and the ocgcore location and position
bit constants (DECK 0x1, HAND 0x2, MZONE 0x4, SZONE 0x8, GRAVE 0x10,
REMOVED 0x20, EXTRA 0x40, OVERLAY 0x80; FACEUP 0x5, FACEDOWN 0xA). `Wrappers`
holds `Option` and `Result`. A thrown JavaScript exception is an `Err`.

The code reads a 32-byte replay header: six four-byte fields (id, version,
flag, seed, the raw size bytes, hash) and then eight property bytes. The body
therefore starts at offset 32.

## Model

| member | source | states |
|---|---|---|
| DuelBoard.Locate | packages/duel-client/src/index.ts:284-291 | the container is the one of the controller and the location without its OVERLAY bit; a missing container is an error |
| DuelBoard.LocateMeaning | packages/duel-client/src/index.ts:30-51 | on the mat the constructor builds, `locate` succeeds exactly for players 0 and 1 and the seven locations, with or without the OVERLAY bit |
| DuelBoard.ShapedKeys | packages/duel-client/src/index.ts:33-50 | the mat holds exactly the seven locations of each of the two players |
| DuelBoard.AdjustedMeaning | packages/duel-client/src/index.ts:234-239 | `adjustSequence` sets the sequence, marks the card dirty exactly when the sequence changes, and changes nothing else |
| DuelBoard.Renumber | packages/duel-client/src/index.ts:234-239 | `container.forEach(adjustSequence)` keeps the number of cards |
| DuelBoard.RenumberOk | packages/duel-client/src/index.ts:234-239 | renumbering a container without holes never fails |
| DuelBoard.RenumberEffect | packages/duel-client/src/index.ts:234-239 | after renumbering, each card of the container has its index as sequence, every other card is unchanged, and no card changes anything but sequence and dirty flag |
| DuelBoard.FirstFaceUp | packages/duel-client/src/index.ts:348 | `findIndex` returns -1 or an index of the container |
| DuelBoard.FirstFaceUpMeaning | packages/duel-client/src/index.ts:348 | `findIndex` returns the first face-up card, or -1 exactly when there is none |
| DuelBoard.Store | packages/duel-client/src/index.ts:329-330 | `container[sequence] = card` puts the card at that index, leaves the other slots, and grows the array with holes past its end |
| DuelBoard.ExtraSlot | packages/duel-client/src/index.ts:348-349 | the insertion index is at most the length of the extra deck |
| DuelBoard.Put | packages/duel-client/src/index.ts:305-360 | `put` keeps the number of cards |
| DuelBoard.Remove | packages/duel-client/src/index.ts:362-378 | `remove` keeps the number of cards and returns a card of the arena |
| DuelBoard.InPileSeated | packages/duel-client/src/index.ts:305-378 | on a valid board a card in a container records that container and its index, and is no material |
| DuelBoard.PileFilled | packages/duel-client/src/index.ts:30-51 | only the two zones have holes |
| DuelBoard.ValidValidates | packages/duel-client/src/index.ts:862-888 | `_validate` never throws on a valid board: every card's sequence is its index |
| DuelBoard.InsertMembers | packages/duel-client/src/index.ts:337-349 | `splice(at, 0, card)` shifts the cards from `at` up by one and adds only the card |
| DuelBoard.InsertDistinct | packages/duel-client/src/index.ts:337-349 | inserting a card not yet in the container keeps its cards distinct |
| DuelBoard.ReseatValid | packages/duel-client/src/index.ts:337-351 | replacing a container and renumbering it keeps the board valid |
| DuelBoard.PlaceValid | packages/duel-client/src/index.ts:323-345 | a card pushed on top of a pile or stored into a zone slot keeps the board valid |
| DuelBoard.PutOnTop | packages/duel-client/src/index.ts:323-345 | hand, grave and banished piles, a deck with sequence other than 0 and the extra deck for a face-up card all take the card on top, whatever the sequence, and it gets the pile's old length as sequence |
| DuelBoard.PutIntoZone | packages/duel-client/src/index.ts:328-330 | a zone takes the card at exactly slot `sequence` |
| DuelBoard.PutInserting | packages/duel-client/src/index.ts:336-352 | a deck with sequence 0 and the extra deck for a face-down card insert the card and renumber the pile |
| DuelBoard.PutTopValid | packages/duel-client/src/index.ts:323-345 | putting on top keeps the board valid |
| DuelBoard.PutZoneValid | packages/duel-client/src/index.ts:328-330 | putting into a zone slot keeps the board valid |
| DuelBoard.PutInsertValid | packages/duel-client/src/index.ts:336-352 | inserting into the deck or the extra deck keeps the board valid |
| DuelBoard.PutKeepsValid | packages/duel-client/src/index.ts:305-360 | `put` of a card that is no material and sits in no other container keeps the board valid |
| DuelBoard.PutDeckBottom | packages/duel-client/src/index.ts:336-340 | sequence 0 puts the card at the bottom of the deck with sequence 0; every card above moves up by one and is marked dirty; no other card changes |
| DuelBoard.PutExtraFaceDown | packages/duel-client/src/index.ts:346-352 | a face-down card goes just below the first face-up card; with no face-up card it goes below the top card, as `container.length - 1` says; the pile then passes `_validate` |
| DuelBoard.ExtraOrderFaceUp | packages/duel-client/src/index.ts:342-345 | a face-up card on top keeps the face-down cards below the face-up ones |
| DuelBoard.InsertFaceDown | packages/duel-client/src/index.ts:347-349 | inserting a face-down card below every face-up card keeps the order |
| DuelBoard.ExtraOrderFaceDown | packages/duel-client/src/index.ts:346-352 | a face-down card inserted below the first face-up card keeps the order |
| DuelBoard.ExtraOrderKept | packages/duel-client/src/index.ts:341-353 | putting any card into the extra deck keeps the face-down cards below the face-up ones, as the comment at line 347 says |
| DuelBoard.PutOutcome | packages/duel-client/src/index.ts:305-360 | on a valid board `put` fails exactly for a bad player, a location outside the seven, or a card already in the container |
| DuelBoard.RemoveFromZone | packages/duel-client/src/index.ts:364-369 | removing from a zone empties exactly that slot, marks the card dirty, and changes no other container |
| DuelBoard.RemoveFromPile | packages/duel-client/src/index.ts:370-376 | removing from a pile closes the gap, renumbers the rest so that `_validate` passes, marks the card dirty and changes no card outside the pile |
| DuelBoard.RestMembers | packages/duel-client/src/index.ts:371 | `splice(sequence, 1)` keeps every other slot in order and drops the removed card |
| DuelBoard.RemoveOutcome | packages/duel-client/src/index.ts:362-378 | on a valid board `remove` fails exactly for a bad player or an empty or missing slot |
| DuelBoard.RemoveZoneValid | packages/duel-client/src/index.ts:364-369 | removing from a zone keeps the board valid and the card sits nowhere |
| DuelBoard.RemoveSpliceValid | packages/duel-client/src/index.ts:370-376 | removing from a pile keeps the board valid and the card sits nowhere |
| DuelBoard.RemoveKeepsValid | packages/duel-client/src/index.ts:362-378 | `remove` keeps the board valid, and the card it takes keeps its state but sits nowhere |
| DuelBoard.PutFrame | packages/duel-client/src/index.ts:305-360 | `put` changes only the target container, its cards and the card it places, which ends up in it, dirty |
| DuelBoard.StoreGrown | packages/duel-client/src/index.ts:329 | storing a card keeps every other card of the zone |
| DuelBoard.PushGrown | packages/duel-client/src/index.ts:326 | pushing a card keeps every other card of the pile |
| DuelBoard.PutInsertFrame | packages/duel-client/src/index.ts:336-352 | inserting changes only the target container and its cards |
| DuelBoard.RemoveFrame | packages/duel-client/src/index.ts:362-378 | `remove` changes only the container it takes from and its cards |
| DuelBoard.UnseatedKept | packages/duel-client/src/index.ts:305-378 | a card in no container is untouched by a change confined to one container |
| DuelBoard.KeptValid | packages/duel-client/src/index.ts:83-104 | `set`, `update` and `snapshot` change what a card shows and nothing of where it sits, so the board stays valid |
| DuelMove.Spliced | packages/duel-client/src/index.ts:740 | `splice(s, 1)` removes one material when `s` is an index and nothing otherwise |
| DuelMove.Detach | packages/duel-client/src/index.ts:740 | detaching a material keeps the number of cards |
| DuelMove.Attach | packages/duel-client/src/index.ts:727-731 | pushing a material keeps the number of cards |
| DuelMove.Recoded | packages/duel-client/src/index.ts:698-700 | setting a code changes no container and keeps the number of cards |
| DuelMove.Mount | packages/duel-client/src/index.ts:727-733 | mounting changes no container and keeps the number of cards |
| DuelMove.Freed | packages/duel-client/src/index.ts:743 | forgetting the carrier changes no container and keeps the number of cards |
| DuelMove.LooseNotInPile | packages/duel-client/src/index.ts:362-378 | a card that sits nowhere is in no container slot |
| DuelMove.TakenLoose | packages/duel-client/src/index.ts:362-378 | the card `remove` took sits nowhere afterwards |
| DuelMove.AttachValid | packages/duel-client/src/index.ts:727-731 | pushing a loose card onto a carrier keeps the board valid |
| DuelMove.ReleaseValid | packages/duel-client/src/index.ts:743 | forgetting the carrier of a loose card keeps the board valid and the card free to be put |
| DuelMove.MaterialsDistinct | packages/duel-client/src/index.ts:727-729 | a carrier's materials are distinct, since each records its own index |
| DuelMove.RenumberedSlots | packages/duel-client/src/index.ts:741 | `forEach(adjustSequence)` over a material list gives each material its index |
| DuelMove.DetachRest | packages/duel-client/src/index.ts:740 | after the splice the carrier keeps all its other materials, each still recording it, and the taken one is gone |
| DuelMove.DetachValid | packages/duel-client/src/index.ts:740-741 | splicing a material out and renumbering the rest keeps the board valid, leaves the material loose and unchanged, and the carrier holds the rest |
| DuelMove.DetachPiles | packages/duel-client/src/index.ts:740-741 | detaching and renumbering keeps every container consistent |
| DuelMove.DetachOverlays | packages/duel-client/src/index.ts:740-741 | detaching and renumbering keeps every material list consistent |
| DuelMove.GrowValid | packages/duel-client/src/index.ts:681-688 | a new card joins the arena sitting nowhere, and the board stays valid |
| DuelMove.AtOccupant | packages/duel-client/src/index.ts:293-303 | `at` without the OVERLAY bit finds the card seated in the slot, the same one `remove` takes |
| DuelMove.SpawnOutcome | packages/duel-client/src/index.ts:679-694 | a token is refused only for a bad player or location |
| DuelMove.SpawnEffect | packages/duel-client/src/index.ts:679-694 | a token lands in its destination container with its code, controller, location and position, dirty and without materials; no card outside that container changes; the board stays valid |
| DuelMove.DespawnOutcome | packages/duel-client/src/index.ts:695-704 | without the OVERLAY bit a despawn fails exactly where `at` fails |
| DuelMove.DespawnEffect | packages/duel-client/src/index.ts:695-704 | a despawned token sits nowhere afterwards, dirty, carrying the message's code when that is nonzero; the board stays valid |
| DuelMove.RecodedValid | packages/duel-client/src/index.ts:698-700 | setting a code keeps the board valid and leaves `at` finding the same cards |
| DuelMove.RemoveTaken | packages/duel-client/src/index.ts:710-711 | `remove` at a slot `at` found occupied takes that very card and keeps the board valid |
| DuelMove.DespawnValid | packages/duel-client/src/index.ts:695-704 | despawning keeps the board valid in every case, the OVERLAY bit included |
| DuelMove.LoosePut | packages/duel-client/src/index.ts:305-360 | a card that sits nowhere and has no carrier can be put exactly where `put` accepts the player and location, and the put changes only the target container |
| DuelMove.TakenPut | packages/duel-client/src/index.ts:711-712 | the card `remove` took can be put exactly where `put` accepts the player and location |
| DuelMove.RelocateSplit | packages/duel-client/src/index.ts:709-712 | relocating the occupant of an ordinary slot is removing it and then putting it |
| DuelMove.LandEffect | packages/duel-client/src/index.ts:712-718 | the put fails only on a bad destination; the card arrives with the destination's controller and location, the message's position, and the message's code when it is nonzero or the destination is the extra deck |
| DuelMove.RelocateEffect | packages/duel-client/src/index.ts:709-720 | a move between containers fails only on a bad destination and otherwise leaves a valid board with the card at the destination, its new position, its code as above, and its snapshot untouched |
| DuelMove.LandOnExtraTop | packages/duel-client/src/index.ts:712-714 | `put` picks the extra-deck slot from the position the card had before the move: a card face up before goes on top |
| DuelMove.RelocateSeesOldPosition | packages/duel-client/src/index.ts:709-714 | a card face up before the move goes on top of the extra deck however the message sets its position, since the position is set only after `put` |
| DuelMove.ToOverlaySplit | packages/duel-client/src/index.ts:721-733 | a move onto a carrier is removing the card and then mounting it |
| DuelMove.ToOverlayIs | packages/duel-client/src/index.ts:721-733 | once both cards are found and the card removed, the move is the mount |
| DuelMove.MountShape | packages/duel-client/src/index.ts:727-733 | the card becomes the carrier's last material with that index as sequence, the carrier's location with the OVERLAY bit and its controller, and the message's code when nonzero; the carrier is unchanged |
| DuelMove.MountValid | packages/duel-client/src/index.ts:727-733 | mounting the card `remove` took keeps the board valid, and the card sits in no container |
| DuelMove.ToOverlayEffect | packages/duel-client/src/index.ts:721-735 | a move onto a carrier found by `at` succeeds and leaves a valid board where the card is the carrier's last material, in no container, dirty, with code, location and controller as above |
| DuelMove.CarrierFound | packages/duel-client/src/index.ts:723 | the carrier `at` finds at an ordinary slot is a card of the arena with no carrier of its own |
| DuelMove.UnmountIs | packages/duel-client/src/index.ts:736-745 | leaving a carrier is splice, renumber, forget the carrier, then `put` |
| DuelMove.DropEffect | packages/duel-client/src/index.ts:743-745 | a material that forgets its carrier is put as any loose card, with the destination's controller and location |
| DuelMove.UnmountEffect | packages/duel-client/src/index.ts:736-747 | leaving a carrier succeeds exactly for an existing material and a good destination, and leaves a valid board where the carrier holds the rest and the card sits at the destination, dirty and without carrier |
| DuelMove.FromOverlayUnmounts | packages/duel-client/src/index.ts:736-738 | a move off a carrier unmounts the material at the message's subsequence of the card `at` finds |
| DuelMove.TransferShifts | packages/duel-client/src/index.ts:748-756 | a move between carriers shifts the first carrier's material at the subsequence onto the second |
| DuelMove.TransferIs | packages/duel-client/src/index.ts:748-756 | once both carriers are found, the move between them is the shift |
| DuelMove.ShiftParts | packages/duel-client/src/index.ts:753-762 | after the splice and renumbering the board is valid and the moved material is loose and unchanged |
| DuelMove.ShiftCommutes | packages/duel-client/src/index.ts:755-762 | pushing onto the second carrier before renumbering the first, as the source does, equals renumbering first |
| DuelMove.CommuteCard | packages/duel-client/src/index.ts:755-762 | the same, card by card |
| DuelMove.ShiftEffect | packages/duel-client/src/index.ts:748-766 | a shift succeeds exactly for an existing material; the material becomes the second carrier's last, records it, takes its location with the OVERLAY bit and keeps its own controller; the first carrier keeps the rest; the board stays valid |
| DuelMove.RelocateValid | packages/duel-client/src/index.ts:709-720 | a move between containers keeps the board valid |
| DuelMove.ToOverlayValid | packages/duel-client/src/index.ts:721-735 | a move onto a carrier keeps the board valid |
| DuelMove.FromOverlayValid | packages/duel-client/src/index.ts:736-747 | a move off a carrier keeps the board valid |
| DuelMove.TransferValid | packages/duel-client/src/index.ts:748-766 | a move between carriers keeps the board valid |
| DuelMove.TransferNeedsCarriers | packages/duel-client/src/index.ts:750-751 | without a card at both ends the move between carriers fails, as `at` throws |
| DuelMove.MoveKeepsValid | packages/duel-client/src/index.ts:676-767 | every branch of `_handleMove` that succeeds leaves a valid board |
| DuelMove.MoveKeepsArena | packages/duel-client/src/index.ts:676-767 | a move never forgets a card: the arena grows by a spawned token at most |
| DuelMove.DespawnArena | packages/duel-client/src/index.ts:695-704 | a despawn keeps every card of the arena |
| DuelMove.RelocateArena | packages/duel-client/src/index.ts:709-720 | a move between containers keeps every card of the arena |
| DuelMove.ToOverlayArena | packages/duel-client/src/index.ts:721-735 | a move onto a carrier keeps every card of the arena |
| DuelMove.FromOverlayArena | packages/duel-client/src/index.ts:736-747 | a move off a carrier keeps every card of the arena |
| DuelMove.TransferArena | packages/duel-client/src/index.ts:748-766 | a move between carriers keeps every card of the arena |
| DuelHandle.CleanSlot | packages/duel-client/src/index.ts:853-856 | an empty slot is skipped; the arena keeps its size |
| DuelHandle.CleanPile | packages/duel-client/src/index.ts:852-857 | cleaning one container keeps the arena's size |
| DuelHandle.CleanKeys | packages/duel-client/src/index.ts:850-859 | cleaning the listed containers keeps the arena's size |
| DuelHandle.CleanPileMeaning | packages/duel-client/src/index.ts:852-857 | cleaning a container clears the dirty flag and takes the snapshot of exactly the cards it holds |
| DuelHandle.CleanKeysMeaning | packages/duel-client/src/index.ts:850-859 | cleaning the listed containers cleans exactly the cards some of them hold |
| DuelHandle.KeysCover | packages/duel-client/src/index.ts:850-851 | the loops visit all fourteen containers of the mat |
| DuelHandle.CleanupMeaning | packages/duel-client/src/index.ts:848-860 | `_cleanup` cleans exactly the cards that sit in a container, leaves every other card and the mat alone, and keeps the board valid |
| DuelHandle.CleanupIdempotent | packages/duel-client/src/index.ts:848-860 | a second `_cleanup` changes nothing |
| DuelHandle.Fresh | packages/duel-client/src/index.ts:251-258 | `init` creates the counted number of cards for a container |
| DuelHandle.Ids | packages/duel-client/src/index.ts:263 | the new cards are pushed in order |
| DuelHandle.DealValid | packages/duel-client/src/index.ts:250-264 | dealing into an empty container keeps the board valid, numbers the `i`-th new card `i`, and keeps every earlier card |
| DuelHandle.DealtKept | packages/duel-client/src/index.ts:249-281 | a dealt container stays dealt while later containers are dealt |
| DuelHandle.InitFromEffect | packages/duel-client/src/index.ts:249-281 | for at most two players on empty decks, `init` deals each player's main deck and extra deck, keeps every other container and earlier card, and keeps the board valid |
| DuelHandle.InitStep | packages/duel-client/src/index.ts:250-280 | one turn of the player loop deals the main deck and then the extra deck |
| DuelHandle.InitFromThirdPlayer | packages/duel-client/src/index.ts:249-250 | a third player makes `locate` throw, since the mat has containers for players 0 and 1 only |
| DuelHandle.DrawStart | packages/duel-client/src/index.ts:406 | `splice(length - n, n)` removes exactly `n` cards off the top when the deck holds enough, and at most `n` otherwise, following JavaScript's rule for a negative start |
| DuelHandle.TruncateValid | packages/duel-client/src/index.ts:405-406 | cutting off the top of the deck leaves a valid board whose cut cards sit nowhere and are distinct |
| DuelHandle.DrawStep | packages/duel-client/src/index.ts:408-410 | a drawn card takes its code and goes on top of the hand, and the board stays valid |
| DuelHandle.DrewCompose | packages/duel-client/src/index.ts:407-412 | one turn of the draw loop followed by the rest is the loop from that turn on |
| DuelHandle.DrawCardsEffect | packages/duel-client/src/index.ts:407-412 | the draw loop puts the drawn cards on top of the hand in order, each with its code, touches nothing else and keeps the board valid |
| DuelHandle.DrawEffect | packages/duel-client/src/index.ts:403-417 | MSG_DRAW fails only for a player without containers; otherwise the cards spliced off the deck's top land on the hand in order with the message's codes, nothing else changes, and the board stays valid |
| DuelHandle.RemoveSeated | packages/duel-client/src/index.ts:362-378 | the card `remove` takes is the one seated in the slot it names |
| DuelHandle.SwapIs | packages/duel-client/src/index.ts:419-427 | a successful MSG_SWAP went through both lookups, both removals and then its two `put`s |
| DuelHandle.SwapLook | packages/duel-client/src/index.ts:420-421 | a plain lookup that finds a card finds the one seated in that slot |
| DuelHandle.SwapFirst | packages/duel-client/src/index.ts:423 | the first removal takes the first card and keeps the board valid |
| DuelHandle.SwapSecond | packages/duel-client/src/index.ts:424 | the second removal takes the card seated in its slot on the board the first left, and the first card stays loose |
| DuelHandle.SwapParts | packages/duel-client/src/index.ts:423-424 | after both removals the first card sits nowhere and the second nowhere or in the first's container |
| DuelHandle.ExchangeValid | packages/duel-client/src/index.ts:426-427 | the two `put`s keep the board valid |
| DuelHandle.SwapSteps | packages/duel-client/src/index.ts:420-427 | the two removals leave a board on which the two `put`s keep validity |
| DuelHandle.SwapKeepsValid | packages/duel-client/src/index.ts:419-433 | MSG_SWAP keeps the board valid whatever the coordinates |
| DuelHandle.SwapRuns | packages/duel-client/src/index.ts:419-427 | when every lookup and removal succeeds, MSG_SWAP is its two `put`s |
| DuelHandle.OccupiedAt | packages/duel-client/src/index.ts:293-303 | `at` finds the card of an occupied plain slot |
| DuelHandle.SwapApart | packages/duel-client/src/index.ts:423-424 | between two containers the removals leave each destination without the card it will receive and every third container as it was |
| DuelHandle.ExchangeEffect | packages/duel-client/src/index.ts:426-427 | the two `put`s into two different containers succeed, each card in the other's container with the other's controller and location, no third container changed |
| DuelHandle.SwapTail | packages/duel-client/src/index.ts:419-427 | lookups, removals and `put`s between two occupied slots of two containers give the swapped board |
| DuelHandle.SwapWhenOccupied | packages/duel-client/src/index.ts:419-427 | MSG_SWAP between two occupied slots succeeds and swaps the cards |
| DuelHandle.SwapEffect | packages/duel-client/src/index.ts:419-433 | MSG_SWAP between two containers succeeds exactly when both slots hold a card; then each card is in the other's container under its controller and location, no third container changes and the board stays valid |
| DuelHandle.PosChangeEffect | packages/duel-client/src/index.ts:440-448 | MSG_POS_CHANGE fails exactly when the place holds no card; otherwise that card alone takes the position and is dirty, and the board stays valid |
| DuelHandle.Reveal | packages/duel-client/src/index.ts:532-539 | the reveal loop keeps the arena's size |
| DuelHandle.RevealOk | packages/duel-client/src/index.ts:532-539 | the reveal loop succeeds exactly when every index it reads holds a card |
| DuelHandle.ConsIndex | packages/duel-client/src/index.ts:538 | the log lines after the first are the rest's, shifted by one |
| DuelHandle.RevealStep | packages/duel-client/src/index.ts:533-538 | one turn: the card takes the code when nonzero, is named in a log line, then the loop goes on |
| DuelHandle.LaterElsewhere | packages/duel-client/src/index.ts:534 | on a pile without repeats the loop reads a different card each turn |
| DuelHandle.RevealCards | packages/duel-client/src/index.ts:532-539 | every revealed card shows its code, kept when the code is 0, and no other card changes |
| DuelHandle.RevealNotes | packages/duel-client/src/index.ts:532-539 | one log line per revealed card names it as shown, in order |
| DuelHandle.RevealEffect | packages/duel-client/src/index.ts:532-539 | both of the above together |
| DuelHandle.ExtraTopBaseMeaning | packages/duel-client/src/index.ts:547-548 | the corrected start is the topmost face-down card: all cards up to it face down, the next face up |
| DuelHandle.RevealKeepsValid | packages/duel-client/src/index.ts:532-539 | revealing changes no place, so the board stays valid |
| DuelHandle.ConfirmedEffect | packages/duel-client/src/index.ts:529-542 | a confirmation all of whose reads hold cards logs the header, then reveals and logs each card |
| DuelHandle.ConfirmDeckTopIs | packages/duel-client/src/index.ts:529-542 | MSG_CONFIRM_DECKTOP reads down from the top of the deck |
| DuelHandle.ConfirmDeckTopEffect | packages/duel-client/src/index.ts:529-542 | MSG_CONFIRM_DECKTOP fails exactly for a player without containers or more cards than the deck holds; otherwise the `j`-th code goes to the `j`-th card from the top, each logged in order after the header, and nothing else changes |
| DuelHandle.ConfirmDeckTopOk | packages/duel-client/src/index.ts:529-542 | the failure cases of the above |
| DuelHandle.ConfirmDeckTopShows | packages/duel-client/src/index.ts:529-542 | the successful case of the above |
| DuelHandle.TopReachable | packages/duel-client/src/index.ts:534 | reading down from the top of a pile without holes reaches a card for as many turns as the pile is long |
| DuelHandle.ConfirmExtraTopIs | packages/duel-client/src/index.ts:544-559 | the corrected MSG_CONFIRM_EXTRATOP reads down from the topmost face-down card |
| DuelHandle.ConfirmExtraTopEffect | packages/duel-client/src/index.ts:544-559 | the corrected MSG_CONFIRM_EXTRATOP fails exactly for a player without containers or more cards than lie face down; otherwise the `j`-th code goes to the `j`-th face-down card from the top, each logged in order, nothing else changes |
| DuelHandle.ExtraTopAsWrittenRevealsFaceUp | packages/duel-client/src/index.ts:547-552 | on an extra deck of one face-down and four face-up cards, the index as written is 3, a face-up card that gets renamed, where the corrected index is 0 |
| DuelHandle.SetEach | packages/duel-client/src/index.ts:572-574 | the renaming loop keeps the arena's size |
| DuelHandle.Zeros | packages/duel-client/src/index.ts:563-565 | MSG_SHUFFLE_DECK gives every card the code 0 |
| DuelHandle.SetEachOk | packages/duel-client/src/index.ts:572-574 | the renaming loop succeeds exactly when every slot it writes holds a card |
| DuelHandle.SetEachEffect | packages/duel-client/src/index.ts:572-574 | the `j`-th card takes the `j`-th code and no other card changes |
| DuelHandle.SetEachKeepsValid | packages/duel-client/src/index.ts:561-576 | renaming changes no place, so the board stays valid |
| DuelHandle.ShuffleDeckEffect | packages/duel-client/src/index.ts:561-568 | MSG_SHUFFLE_DECK fails only for a player without containers; then every card of the deck has code 0 and is dirty, and nothing else changes |
| DuelHandle.ShuffleHandEffect | packages/duel-client/src/index.ts:570-576 | MSG_SHUFFLE_HAND fails exactly for a player without containers or more codes than hand cards; otherwise the `j`-th hand card takes the `j`-th code, nothing else changes |
| DuelHandle.Tell | packages/duel-client/src/index.ts:458 | a rendered text becomes one hint; a failed rendering is the error |
| DuelHandle.HintOutcome | packages/duel-client/src/index.ts:450-527 | MSG_HINT changes only `hints.event`, and only for an event hint; message, selected-option, race and attribute hints report one hint; a card-name hint reports one exactly for a known card; the other kinds report nothing and cannot fail |
| DuelHandle.AtInArena | packages/duel-client/src/index.ts:293-303 | a lookup that finds a card finds a card of the arena |
| DuelHandle.SwapArena | packages/duel-client/src/index.ts:419-433 | MSG_SWAP creates no card |
| DuelHandle.ConfirmDeckTopKeepsValid | packages/duel-client/src/index.ts:529-542 | MSG_CONFIRM_DECKTOP keeps the containers, the arena and validity |
| DuelHandle.ExtraTopKeepsValid | packages/duel-client/src/index.ts:544-559 | MSG_CONFIRM_EXTRATOP, from either start index, keeps the containers, the arena and validity |
| DuelHandle.StartEffect | packages/duel-client/src/index.ts:243-282 | MSG_START on empty decks fails exactly for more than two players; otherwise the decks are dealt, the life points are the message's, the counters are 0, and the rest is kept |
| DuelHandle.ChainRoundTrip | packages/duel-client/src/index.ts:643-660 | MSG_CHAINING then MSG_CHAINED: the hint names the card the chain found, and the target is cleared again |
| DuelHandle.ChainedEffect | packages/duel-client/src/index.ts:651-660 | MSG_CHAINED with no target reports and changes nothing; with one it reports one hint and clears the target |
| DuelHandle.Resolved | packages/duel-client/src/index.ts:664 | the card an entry names is a card of the arena |
| DuelHandle.TargetedFails | packages/duel-client/src/index.ts:663-668 | MSG_BECOME_TARGET fails when some entry names a place without a card |
| DuelHandle.TargetedLines | packages/duel-client/src/index.ts:663-668 | a successful MSG_BECOME_TARGET logs one line per entry, in order, each naming the card the entry resolves to |
| DuelHandle.TargetedStep | packages/duel-client/src/index.ts:664-666 | one turn of the loop logs the entry's line before the rest |
| DuelHandle.WithBoardKeepsValid | packages/duel-client/src/index.ts:391-674 | a message that only changes the board keeps the invariant when its board is valid |
| DuelHandle.WithNotesKeepsValid | packages/duel-client/src/index.ts:391-674 | a message that changes the board and logs keeps the invariant under the same conditions |
| DuelHandle.DispatchBoard | packages/duel-client/src/index.ts:403-576 | the switch hands each board-changing message to its operation |
| DuelHandle.DispatchChain | packages/duel-client/src/index.ts:643-669 | the switch hands each chain message to its case |
| DuelHandle.BoardMessageKeepsValid | packages/duel-client/src/index.ts:403-576 | the board-changing messages keep the invariant |
| DuelHandle.DispatchNotes | packages/duel-client/src/index.ts:529-559 | the switch hands each confirmation to its operation |
| DuelHandle.NotesMessageKeepsValid | packages/duel-client/src/index.ts:529-559 | the confirmations keep the invariant |
| DuelHandle.OtherMessageKeepsValid | packages/duel-client/src/index.ts:396-673 | the other messages leave the board alone and keep the invariant |
| DuelHandle.DispatchKeepsValid | packages/duel-client/src/index.ts:396-673 | every case of the switch keeps the invariant, MSG_START on empty decks |
| DuelHandle.HandleKeepsValid | packages/duel-client/src/index.ts:391-674 | `handle` keeps the invariant for every message, MSG_START on empty decks |
| DuelHandle.DispatchCounters | packages/duel-client/src/index.ts:396-673 | MSG_START resets the counters and sets the life points, MSG_NEW_TURN counts a turn and records its player, no other message touches them |
| DuelHandle.HandleCounters | packages/duel-client/src/index.ts:391-674 | `handle` records the message and changes the counters only as above |
| DuelHandle.RunKeepsValid | packages/duel-client/src/index.ts:391-674 | the invariant holds after any run of messages of a started duel |
| DuelHandle.RunCountsTurns | packages/duel-client/src/index.ts:603-607 | along a run the turn counter counts the MSG_NEW_TURN messages, staying `NaN` if it was, and the phase never changes |
| DuelHandle.FreshValid | packages/duel-client/src/index.ts:30-51 | a new duel mat is valid and its decks are empty |
| DuelHandle.StartFresh | packages/duel-client/src/index.ts:243-282 | MSG_START on a new client for at most two players succeeds and leaves a valid duel at turn 0 and phase 0 |
| DuelText.RenderMeaning | packages/duel-client/src/index.ts:770-781 | `_render` gives the missing-template marker for an unknown id and fails exactly when a present template has a falsy piece |
| DuelText.RenderLiteral | packages/duel-client/src/index.ts:770-781 | a template of non-empty literals renders to its own text whatever the arguments |
| DuelText.NameArg | packages/duel-client/src/index.ts:627 | `entry?.name` is the card's name for a known code and `undefined` otherwise |
| DuelText.NameText | packages/duel-client/src/index.ts:538 | `${entry?.name}` is the card's name for a known code and the text "undefined" otherwise |
| DuelText.DescriptionRoundTrip | packages/duel-client/src/index.ts:783-797 | a description number built from a card code and a text index decodes to that card's text, or to the missing-entry or missing-text marker, the latter without its closing `>>` |
| DuelText.SystemIdsSkipQuery | packages/duel-client/src/index.ts:784-786 | numbers below 10000 are system strings and never consult the card database |
| DuelText.Pow2 | packages/duel-client/src/index.ts:839 | the filters `1 << k` are positive |
| DuelText.BitsMeaning | packages/duel-client/src/index.ts:837-846 | the bits the loop hits are every set bit below `filterMax`, each once, in increasing order |
| DuelText.PowMonotone | packages/duel-client/src/index.ts:839 | the filter grows with each shift |
| DuelText.PowMonotoneAt | packages/duel-client/src/index.ts:839 | the filter grows with each shift, at one pair of indices |
| DuelText.RenderAllMeaning | packages/duel-client/src/index.ts:841 | a list of strings renders exactly when each renders, to those strings in order |
| DuelText.Offsets | packages/duel-client/src/index.ts:843 | the string the `j`-th bit names is `index + j` |
| DuelText.PatternIsBits | packages/duel-client/src/index.ts:837-846 | `_filterPattern` renders the string of every set bit in increasing order |
| DuelText.PatternStep | packages/duel-client/src/index.ts:839-844 | one turn of the loop, for a bit below `filterMax` |
| DuelText.RenderHit | packages/duel-client/src/index.ts:840-842 | a set bit renders its string first, then the rest |
| DuelText.PrefixedAssoc | packages/duel-client/src/index.ts:838-841 | collecting hits in two steps is collecting them at once |
| DuelText.FilterPattern | packages/duel-client/src/index.ts:837-846 | the loop returns the names `Pattern` gives, which `PatternNames` states: the system string `index + j` for each set bit `j` whose power of two is below `filterMax`, in increasing order of `j` |
| DuelText.PatternNames | packages/duel-client/src/index.ts:837-846 | `_filterPattern` succeeds exactly when every set bit's string `index + j` renders, and then lists them in order of the bits |
| DuelText.RenderOffsets | packages/duel-client/src/index.ts:837-846 | the strings `index + j` of a list of bits render, in order, exactly when each does |
| DuelText.AttributeBits | packages/duel-client/src/index.ts:807-809 | `formatAttribute` looks at bits 0 to 6 only |
| DuelText.BitIndexMeaning | packages/duel-client/src/index.ts:819-825 | the scan finds the single bit of a one-bit value below 2^8 and nothing for any other value |
| DuelText.PowersToEight | packages/duel-client/src/index.ts:822-823 | the filters the scan passes through are 1, 2, 4, … 256 |
| DuelText.LocationOverlay | packages/duel-client/src/index.ts:812 | the OVERLAY bit makes no difference to a location's name |
| DuelText.LocationBitName | packages/duel-client/src/index.ts:819-829 | a one-bit location other than the spell/trap zone is named by string 1000 plus its bit index |
| DuelText.LocationNames | packages/duel-client/src/index.ts:811-832 | deck, hand, monster zone, grave, banished and extra deck are strings 1000, 1001, 1002, 1004, 1005, 1006; location 0 is the token pile |
| DuelText.LocationZero | packages/duel-client/src/index.ts:830-832 | location 0 is the token pile |
| DuelText.LocationTwoBits | packages/duel-client/src/index.ts:827-834 | a location with two bits set has no name, so `formatLocation` throws |
| DuelText.FormatLocation | packages/duel-client/src/index.ts:811-835 | the method computes the name `LocationText` gives: the spell/trap zone by sequence (1003 below 5, 1009 above, 1008 at 5), a one-bit location by its bit, location 0 as the token pile, anything else an error |
| DuelText.ScanBits | packages/duel-client/src/index.ts:819-825 | the `while` loop stops at the location's bit with `index` 1000 plus that bit, or passes bit 7 without meeting it |
| DuelClient.Done | packages/duel-client/src/index.ts:391-674 | a handler step reports success exactly when the value step it follows succeeds, and fails with that step's error |
| DuelClient.RevealedAfter | packages/duel-client/src/index.ts:529-539 | lines logged before a reveal loop come first in the log, and the cards are the loop's |
| DuelClient.Preceded | packages/duel-client/src/index.ts:662-668 | lines logged before the target loop come first in the log |
| DuelClient.RevealedNest | packages/duel-client/src/index.ts:529-538 | logging the header and then the reveal loop's lines is one prefix |
| DuelClient.PrecededNest | packages/duel-client/src/index.ts:662-668 | logging a line and then the target loop's lines is one prefix |
| DuelClient.DuelState.constructor | packages/duel-client/src/index.ts:183-213 | a new `DuelState` is the fresh duel of the value model, with the empty mat and `NaN` counters, reports nothing yet and is valid |
| DuelClient.DuelState.Renumber | packages/duel-client/src/index.ts:234-239 | `forEach(adjustSequence)` over a container updates the cards as `DuelBoard.Renumber` does and nothing else |
| DuelClient.DuelState.Put | packages/duel-client/src/index.ts:305-360 | `put` fails or updates cards and containers exactly as `DuelBoard.Put`, whose validity and placement lemmas apply, and touches nothing else |
| DuelClient.DuelState.Remove | packages/duel-client/src/index.ts:362-378 | `remove` returns the card `DuelBoard.Remove` takes and leaves its board, touching nothing else |
| DuelClient.DuelState.CleanPile | packages/duel-client/src/index.ts:852-857 | the inner loop of `_cleanup` cleans the cards of one container as `DuelHandle.CleanPile` |
| DuelClient.DuelState.Cleanup | packages/duel-client/src/index.ts:848-860 | `_cleanup` leaves the board `DuelHandle.Cleanup` gives, which cleans exactly the seated cards |
| DuelClient.DuelState.Deal | packages/duel-client/src/index.ts:250-264 | the push loop of `init` leaves the board `DuelHandle.Deal` gives |
| DuelClient.DuelState.Init | packages/duel-client/src/index.ts:243-282 | `init` makes the duel `DuelHandle.Init` gives, or fails as it does, and reports nothing |
| DuelClient.DuelState.Spawn | packages/duel-client/src/index.ts:679-694 | a token spawn leaves the board `DuelMove.Spawn` gives |
| DuelClient.DuelState.Despawn | packages/duel-client/src/index.ts:695-704 | a token death leaves the board `DuelMove.Despawn` gives |
| DuelClient.DuelState.Relocate | packages/duel-client/src/index.ts:709-720 | a move between containers leaves the board `DuelMove.Relocate` gives |
| DuelClient.DuelState.Attach | packages/duel-client/src/index.ts:727-731 | `ol.overlay.container.push(target)` and its field updates change the cards as `DuelMove.Attach` |
| DuelClient.DuelState.Mount | packages/duel-client/src/index.ts:727-733 | mounting changes the cards as `DuelMove.Mount` |
| DuelClient.DuelState.ToOverlay | packages/duel-client/src/index.ts:721-735 | a move onto a carrier leaves the board `DuelMove.ToOverlay` gives |
| DuelClient.DuelState.MountOn | packages/duel-client/src/index.ts:723-733 | the carrier lookup, removal and mount leave the board `DuelMove.MountOn` gives |
| DuelClient.DuelState.Embark | packages/duel-client/src/index.ts:725-733 | the removal and mount leave the board `DuelMove.Embark` gives |
| DuelClient.DuelState.Unmount | packages/duel-client/src/index.ts:738-745 | a material leaving its carrier leaves the board `DuelMove.Unmount` gives |
| DuelClient.DuelState.FromOverlay | packages/duel-client/src/index.ts:736-747 | a move off a carrier leaves the board `DuelMove.FromOverlay` gives |
| DuelClient.DuelState.Disembark | packages/duel-client/src/index.ts:737-745 | the carrier lookup and unmount leave the board `DuelMove.Disembark` gives |
| DuelClient.DuelState.Shift | packages/duel-client/src/index.ts:753-762 | a material shifting between carriers leaves the board `DuelMove.Shift` gives |
| DuelClient.DuelState.Transfer | packages/duel-client/src/index.ts:748-766 | a move between carriers leaves the board `DuelMove.Transfer` gives |
| DuelClient.DuelState.ShiftOnto | packages/duel-client/src/index.ts:751-762 | the second carrier lookup and shift leave the board `DuelMove.ShiftOnto` gives |
| DuelClient.DuelState.Between | packages/duel-client/src/index.ts:750-762 | with both carriers found the shift leaves the board `DuelMove.Between` gives |
| DuelClient.DuelState.Move | packages/duel-client/src/index.ts:676-767 | `_handleMove` leaves the board `DuelMove.Move` gives, which `MoveKeepsValid` proves valid |
| DuelClient.DuelState.Draw | packages/duel-client/src/index.ts:403-417 | MSG_DRAW leaves the board `DuelHandle.Draw` gives |
| DuelClient.DuelState.Exchange | packages/duel-client/src/index.ts:426-427 | the two `put`s of MSG_SWAP leave the board `DuelHandle.Exchange` gives |
| DuelClient.DuelState.Swap | packages/duel-client/src/index.ts:419-433 | MSG_SWAP leaves the board `DuelHandle.Swap` gives |
| DuelClient.DuelState.PosChange | packages/duel-client/src/index.ts:440-448 | MSG_POS_CHANGE leaves the board `DuelHandle.PosChange` gives |
| DuelClient.DuelState.SetEach | packages/duel-client/src/index.ts:572-574 | the renaming loop changes the cards as `DuelHandle.SetEach` |
| DuelClient.DuelState.ShuffleDeck | packages/duel-client/src/index.ts:561-568 | MSG_SHUFFLE_DECK leaves the board `DuelHandle.ShuffleDeck` gives |
| DuelClient.DuelState.ShuffleHand | packages/duel-client/src/index.ts:570-576 | MSG_SHUFFLE_HAND leaves the board `DuelHandle.ShuffleHand` gives |
| DuelClient.DuelState.Reveal | packages/duel-client/src/index.ts:532-539 | the reveal loop changes the cards and appends the log lines as `DuelHandle.Reveal` |
| DuelClient.DuelState.ConfirmDeckTop | packages/duel-client/src/index.ts:529-542 | MSG_CONFIRM_DECKTOP leaves the board and appends the lines `DuelHandle.ConfirmDeckTop` gives |
| DuelClient.DuelState.ConfirmExtraTop | packages/duel-client/src/index.ts:544-559 | MSG_CONFIRM_EXTRATOP, from the corrected index, leaves the board and appends the lines `DuelHandle.ConfirmExtraTop` gives |
| DuelClient.DuelState.Report | packages/duel-client/src/index.ts:458 | `onHintMessage` of a text fails when rendering failed and otherwise appends that one hint, changing no card |
| DuelClient.DuelState.Hint | packages/duel-client/src/index.ts:450-527 | MSG_HINT makes the step `DuelHandle.Hint` gives |
| DuelClient.DuelState.NewTurn | packages/duel-client/src/index.ts:603-607 | MSG_NEW_TURN counts the turn and records its player, reporting nothing |
| DuelClient.DuelState.Chaining | packages/duel-client/src/index.ts:643-649 | MSG_CHAINING makes the step `DuelHandle.Chaining` gives |
| DuelClient.DuelState.Chained | packages/duel-client/src/index.ts:651-660 | MSG_CHAINED makes the step `DuelHandle.Chained` gives |
| DuelClient.DuelState.BecomeTarget | packages/duel-client/src/index.ts:662-669 | MSG_BECOME_TARGET appends the lines `DuelHandle.Targeted` gives and changes no card |
| DuelClient.DuelState.BoardMessage | packages/duel-client/src/index.ts:403-576 | the board-changing messages make the step the value switch gives |
| DuelClient.DuelState.NotesMessage | packages/duel-client/src/index.ts:529-559 | the confirmations make the step the value switch gives |
| DuelClient.DuelState.Dispatch | packages/duel-client/src/index.ts:396-673 | the switch makes the step `DuelHandle.Dispatch` gives |
| DuelClient.DuelState.TurnMessage | packages/duel-client/src/index.ts:397-607 | MSG_START and MSG_NEW_TURN make the step the value switch gives |
| DuelClient.DuelState.ChainMessage | packages/duel-client/src/index.ts:643-669 | the chain messages make the step the value switch gives |
| DuelClient.DuelState.Handle | packages/duel-client/src/index.ts:391-674 | `handle` makes the step `DuelHandle.Handle` gives and, from a valid state, stays valid, a MSG_START needing empty decks |
| ReplayReader.U32At | packages/data-loader/src/replay.ts:187-189 | `readUInt32LE` succeeds exactly when four bytes are left, and gives an unsigned 32-bit value |
| ReplayReader.I32At | packages/data-loader/src/replay.ts:183-185 | `readInt32LE` succeeds exactly when four bytes are left, and gives a signed 32-bit value |
| ReplayReader.BytesAt | packages/data-loader/src/replay.ts:159-165 | `nextBytes(n)` yields exactly n bytes, or fails when fewer than n are left |
| ReplayReader.Clamp | packages/data-loader/src/replay.ts:145-149 | `slice` clamps both ends to the buffer's length |
| ReplayReader.BufferReader.constructor | packages/data-loader/src/replay.ts:135-139 | the reader starts at offset 0 |
| ReplayReader.BufferReader.NoMore | packages/data-loader/src/replay.ts:151-153 | `noMore` holds exactly when nothing is left to read |
| ReplayReader.BufferReader.Rest | packages/data-loader/src/replay.ts:155-157 | `rest` is the unread bytes, and does not move the offset |
| ReplayReader.BufferReader.Slice | packages/data-loader/src/replay.ts:145-149 | `slice(n)` advances the offset by n even past the end, and yields the clamped bytes |
| ReplayReader.BufferReader.NextU8 | packages/data-loader/src/replay.ts:171-173 | reads one byte and advances by 1; past the end it throws a RangeError (the offset still moves) |
| ReplayReader.BufferReader.NextI8 | packages/data-loader/src/replay.ts:167-169 | reads one signed byte and advances by 1 |
| ReplayReader.BufferReader.NextU16 | packages/data-loader/src/replay.ts:179-181 | reads a little-endian unsigned 16-bit value and advances by 2 |
| ReplayReader.BufferReader.NextI16 | packages/data-loader/src/replay.ts:175-177 | reads a little-endian signed 16-bit value and advances by 2 |
| ReplayReader.BufferReader.NextU32 | packages/data-loader/src/replay.ts:187-189 | reads a little-endian unsigned 32-bit value and advances by 4 |
| ReplayReader.BufferReader.NextI32 | packages/data-loader/src/replay.ts:183-185 | reads a little-endian signed 32-bit value and advances by 4 |
| ReplayReader.BufferReader.NextBytes | packages/data-loader/src/replay.ts:159-165 | collects n bytes and advances by n; a short buffer throws after advancing one past its end |
| ReplayReader.UnitCountMeaning | packages/data-loader/src/replay.ts:69-76 | a name is cut at the first zero 16-bit unit: every unit before the cut is non-zero |
| ReplayReader.Translate | packages/data-loader/src/replay.ts:69-76 | the loop's count and decoded name are those of the cut |
| ReplayReader.RecordsOfJoin | packages/data-loader/src/replay.ts:48-55 | splitting a recorded stream (length byte, then that many bytes, per record) gives the records back, and the stream is well formed |
| ReplayReader.JoinOfRecords | packages/data-loader/src/replay.ts:48-55 | rejoining the records of a well-formed stream reproduces it |
| ReplayReader.TruncatedLastRecord | packages/data-loader/src/replay.ts:145-149 | a final record shorter than its length byte is kept, truncated, without error |
| ReplayReader.Responses | packages/data-loader/src/replay.ts:48-55 | `responses()` yields exactly the records of the stream |
| ReplayReader.HeaderOf | packages/data-loader/src/replay.ts:90-96 | the header decodes exactly when the file has at least 32 bytes |
| ReplayReader.NamesAt | packages/data-loader/src/replay.ts:101-102 | the names are 40-byte fields, one per player |
| ReplayReader.ParamsAt | packages/data-loader/src/replay.ts:103-106 | lp, hand, draw and options take 16 bytes |
| ReplayReader.CodesAt | packages/data-loader/src/replay.ts:130-133 | a deck's codes take four bytes each |
| ReplayReader.DecksAt | packages/data-loader/src/replay.ts:107-111 | one deck pair per player |
| ReplayReader.BodyAt | packages/data-loader/src/replay.ts:99-113 | the body holds one name and one deck pair per player |
| ReplayReader.Players | packages/data-loader/src/replay.ts:112 | player i has name i and deck pair i |
| ReplayReader.LzmaHeaderLayout | packages/data-loader/src/replay.ts:62-67 | the decompressor's header is props[0..5], then the four size bytes, then four zero bytes: 13 bytes |
| ReplayReader.PlayersFollowTag | packages/data-loader/src/replay.ts:100 | a decoded replay has four players exactly when the TAG flag is set, and two otherwise |
| ReplayReader.ShortHeaderFails | packages/data-loader/src/replay.ts:89-96 | a file shorter than the header is rejected |
| ReplayReader.CompressedLayout | packages/data-loader/src/replay.ts:97-98 | with COMPRESSED set the body is the decompressor's outcome on the 13-byte header followed by everything after the header; otherwise it is the bytes after the header unchanged |
| ReplayReader.CorruptStreamFails | packages/data-loader/src/replay.ts:62-67 | a compressed replay whose stream the decompressor rejects fails to decode with the decompressor's error, as lzma's `decompress` throws through `parseReplay` |
| ReplayReader.NamesErrorSticks | packages/data-loader/src/replay.ts:101-102 | once a name field is missing, so are the later ones: the first error decides |
| ReplayReader.ReadHeader | packages/data-loader/src/replay.ts:90-96 | the reads of the header yield the header fields and leave the offset after them |
| ReplayReader.ReadNames | packages/data-loader/src/replay.ts:101-102 | reading the names through the reader gives the names that `NamesAt` decodes and moves past them, or fails as it does |
| ReplayReader.ReadParams | packages/data-loader/src/replay.ts:103-106 | the four duel parameters, read in order |
| ReplayReader.ReadDeck | packages/data-loader/src/replay.ts:130-133 | `readDeck`: a count, then that many codes |
| ReplayReader.ReadDecks | packages/data-loader/src/replay.ts:107-111 | main deck, then extra deck, for each player in order |
| ReplayReader.DoReadReplay | packages/data-loader/src/replay.ts:89-128 | the read-by-read decoder gives the same replay as the pure decoder `ParseReplay`, read errors and decompression errors included, so the round trips proved of `ParseReplay` hold for it |
| ReplayReader.LeBytesInverse | packages/data-loader/src/replay.ts:187-189 | reading four little-endian bytes undoes writing them |
| ReplayReader.HeaderRoundTrip | packages/data-loader/src/replay.ts:90-96 | a written header reads back as its fields |
| ReplayReader.ParamsRoundTrip | packages/data-loader/src/replay.ts:103-106 | written duel parameters read back in order |
| ReplayReader.CodesRoundTrip | packages/data-loader/src/replay.ts:132 | written codes read back |
| ReplayReader.DeckRoundTrip | packages/data-loader/src/replay.ts:130-133 | a written deck reads back and the cursor ends after it |
| ReplayReader.DecksSectionRoundTrip | packages/data-loader/src/replay.ts:107-111 | the deck section reads back as the decks of every player, ending where it ends |
| ReplayReader.NameRoundTrip | packages/data-loader/src/replay.ts:69-76 | a name of at most twenty non-zero units, zero-padded to 40 bytes, decodes from exactly its units |
| ReplayReader.NamesRoundTrip | packages/data-loader/src/replay.ts:101-102 | the names section reads back as the decoded names |
| ReplayReader.BodyRoundTrip | packages/data-loader/src/replay.ts:99-113 | a written body reads back as names, parameters, decks, and every byte after the decks as responses |
| ReplayReader.ReplayRoundTrip | packages/data-loader/src/replay.ts:89-128 | decoding a written uncompressed replay gives back every field: header, names, parameters, decks in player order, response stream |
| ReplayPlan.Refresh2Pair | packages/duel-host/src/replay.ts:143-147 | `refresh2` queries player 0's zone, then player 1's, uncached |
| ReplayPlan.WrapAll | packages/duel-host/src/replay.ts:18-24 | every message is wrapped, in order |
| ReplayPlan.RunQueriesOk | packages/duel-host/src/replay.ts:104-114 | the queries succeed exactly when every synthetic buffer parses, and then give each query's messages in query order |
| ReplayPlan.RunQueriesFirstError | packages/duel-host/src/replay.ts:107-113 | a parse failure is rethrown: the error is that of the first buffer that does not parse |
| ReplayPlan.AnswersAppend | packages/duel-host/src/replay.ts:28-31 | the answers to two runs of queries are the answers of the first run followed by those of the second |
| ReplayPlan.InflateShape | packages/duel-host/src/replay.ts:21-25 | the inflated list starts with the message itself, followed by the refreshed data, every element wrapped without a recipient; it fails exactly when the message is refused or a refresh buffer does not parse |
| ReplayPlan.StartQueries | packages/duel-host/src/replay.ts:17-32 | the start of a replay queries Deck p0, Deck p1, Extra p0, Extra p1 with flags 0x181FFF, and yields their answers wrapped |
| ReplayPlan.BoardRefresh | packages/duel-host/src/replay.ts:53-62 | NEW_PHASE, the summon messages, the chain messages and DAMAGE_STEP_START query MZONE, SZONE and HAND of player 0 then 1, flags 0xF81FFF |
| ReplayPlan.DeckAndGraveEvents | packages/duel-host/src/replay.ts:64-74 | REVERSE_DECK queries both decks; SHUFFLE_DECK only the player's deck; SWAP_GRAVE_DECK only the player's grave |
| ReplayPlan.MoveRefresh | packages/duel-host/src/replay.ts:76-88 | MOVE queries the single card at (cc, cl, cs) if and only if cl is non-zero, lacks the OVERLAY bit and differs from the origin in location or controller |
| ReplayPlan.QuestionRefresh | packages/duel-host/src/replay.ts:34-44 | only the BATTLECMD and IDLECMD questions refresh the board; every other question comes alone |
| ReplayPlan.OnlyTagSwapFails | packages/duel-host/src/replay.ts:50-51 | TAG_SWAP is the one message refused, with the source's error text, before any query |
| ReplayPlan.UnlistedMessagesAlone | packages/duel-host/src/replay.ts:46-91 | a message kind not listed yields exactly itself, wrapped |
| ReplayPlan.NeverCached | packages/duel-host/src/replay.ts:105-117 | no query asks for cached data |
| ReplayPlan.PlanCases | packages/duel-host/src/replay.ts:46-91 | the plan of each message kind, case by case, following `handleMessage` and `handleQuestion` |
| ReplayPlan.SyntheticLayout | packages/duel-host/src/replay.ts:100-126 | a synthetic buffer is [UPDATE_DATA, player, location] or [UPDATE_CARD, player, location, sequence], each kept to its low byte, followed by the engine's data unchanged |
| HostDriver.PileCalls | packages/duel-host/src/driver.ts:81-83 | one `newCard` per code of the pile |
| HostDriver.RecordPile | packages/duel-host/src/driver.ts:81-83 | the loop over one pile appends exactly that pile's `newCard` calls |
| HostDriver.SetupCalls | packages/duel-host/src/driver.ts:75-86 | the engine calls made, in order, are the setup plan: create, then each player's calls, then start |
| HostDriver.PileCallsShape | packages/duel-host/src/driver.ts:81-83 | call i of a pile creates code i for that player, at sequence 0, face-down |
| HostDriver.PlayerCallsRanks | packages/duel-host/src/driver.ts:78-84 | one player's calls are its info, then its main deck, then its extra deck, every card face-down at sequence 0 and owned by that player |
| HostDriver.PlayersCallsRanks | packages/duel-host/src/driver.ts:78-84 | the players' calls come player by player, each block in that order |
| HostDriver.SetupOrder | packages/duel-host/src/driver.ts:75-86 | the duel is created first and started last, with only the players' calls, in order, in between |
| HostDriver.MessageQueue.constructor | packages/duel-host/src/driver.ts:54-57 | the queue starts empty, nothing pumped and nothing delivered |
| HostDriver.MessageQueue.Fill | packages/duel-host/src/driver.ts:67-72 | `pump` runs only when the batch is exhausted, and again while it returns empty batches; nothing pumped is lost or repeated |
| HostDriver.MessageQueue.PumpOnce | packages/duel-host/src/driver.ts:68-71 | one `pump` replaces the exhausted queue by the new batch and resets the index |
| HostDriver.MessageQueue.Pull | packages/duel-host/src/driver.ts:59-61 | the next pumped message, delivered exactly once and in pumping order |
| HostDriver.MessageQueue.Peek | packages/duel-host/src/driver.ts:63-65 | the message the next `pull` returns, without consuming it |
| HostDriver.DuelState.constructor | packages/duel-host/src/driver.ts:106-115 | no pending question, not finished, no response given |
| HostDriver.DuelState.Feed | packages/duel-host/src/driver.ts:117-127 | the response is handed to the engine and nothing is delivered; the result is false, keeping the pending question, when the next message is MSG_RETRY, true, clearing it, otherwise, and the engine's error when it fails to answer; a response over 64 bytes is still handed over, but `setResponse`'s RangeError is raised and the queue is not looked at |
| HostDriver.DuelState.Step | packages/duel-host/src/driver.ts:129-150 | "Duel finished" once finished; a pending question is re-emitted to its player and nothing is pulled; otherwise either the engine's error is raised with nothing delivered, or exactly one message is pulled and the result is its inflation (its error when the inflater throws), a question becomes pending, and MSG_WIN is followed by HOST_DUEL_FINISHED |
| HostDriver.WrapError | packages/duel-host/src/driver.ts:47-52 | an error becomes the single message HOST_ERROR; a result passes through |
| HostDriver.DuelDriver.Start | packages/duel-host/src/driver.ts:30-32 | `start` never throws: it is `replayStart` of the planner (both decks, then both extra decks) with an error turned into `[HOST_ERROR]` |
| HostDriver.DuelDriver.Step | packages/duel-host/src/driver.ts:34-36 | `step` never throws: its result is the state's `step` outcome with an error turned into `[HOST_ERROR]`, and that outcome is the one `StepOutcome` fixes: "Duel finished" once finished, the pending question re-emitted, the engine's error with nothing delivered, or the inflation of exactly one pulled message |
| HostDriver.DuelDriver.Feed | packages/duel-host/src/driver.ts:38-40 | `feed` hands the response to the engine and gives the state's verdict: false exactly when the next message is MSG_RETRY, keeping the pending question; true clears it; the engine's error is raised, and a response over 64 bytes raises `setResponse`'s RangeError without looking at the queue |
| HostDriver.DuelDriver.Release | packages/duel-host/src/driver.ts:42-44 | `release` ends the duel |
| HostDriver.DuelDriver.constructor | packages/duel-host/src/driver.ts:25-28 | a driver holds a new duel state over the message queue whose inflater is the planner's `replayInflate`, with no pending question, no response and not released |
| HostMessages.Wrap | packages/duel-host/src/replay.ts:13-15 | a wrapped message is a duel message with the original payload and no recipient |
| HostMessages.ErrorsAndFinishNeverAwait | packages/duel-host/src/message.ts:26-27 | HOST_ERROR and HOST_DUEL_FINISHED never wait for a response |
| HostMessages.RecipientsMatter | packages/duel-host/src/message.ts:28 | a message without exactly one recipient never waits, so a wrapped message never does |
| HostMessages.NonQuestionsNeverAwait | packages/duel-host/src/message.ts:29 | a message that is not a question never waits, whoever it is addressed to |
| HostMessages.AwaitingIsPendingShape | packages/duel-host/src/message.ts:26-30 | waiting holds exactly for a duel message carrying a question to a single recipient, and every pending question re-emitted to its player waits |
| Consumers.LaminateLoop | packages/replay-laminate/src/main.ts:42-69 | the loop's run (messages recorded, driver calls made, how it ended) is the run of the pure loop `Replay`, whose properties `ReplayFacts` states |
| Consumers.ValidateLoop | packages/replay-validator/src/validator.ts:21-53 | the validator's outcome and driver calls are those of the same pure run `Replay`, read the validator's way |
| Consumers.ReplayFacts | packages/replay-laminate/src/main.ts:42-69 | every run: release comes last and exactly once; responses are fed in order, each at most once, one per waiting message; every duel message looked at is recorded in order; HOST_DUEL_FINISHED ends the run unrecorded; a HOST_ERROR ends it as a throw of that error; only the last message looked at ends it |
| Consumers.ConsumeFacts | packages/replay-laminate/src/main.ts:45-66 | the run facts hold for every continuation of the loop from a consistent midway state |
| Consumers.NextBatchFacts | packages/replay-laminate/src/main.ts:45-46 | the run facts survive a new `step` call once the batch is used up |
| Consumers.ElementFacts | packages/replay-laminate/src/main.ts:47-64 | the run facts survive looking at one message of the batch |
| Consumers.CloseOnHostMessage | packages/replay-laminate/src/main.ts:48-49 | HOST_DUEL_FINISHED or HOST_ERROR ends the run without recording it, release still called |
| Consumers.CloseOutOfResponses | packages/replay-laminate/src/main.ts:52-56 | a waiting message with no response left is recorded, and the run ends normally |
| Consumers.CloseAfterFeed | packages/replay-laminate/src/main.ts:58-61 | a refused response or an engine error while feeding ends the run, release still called |
| Consumers.FeedFacts | packages/replay-validator/src/validator.ts:41-42 | feeding consumes exactly the next response |
| Consumers.PassFacts | packages/replay-laminate/src/main.ts:50-52 | a duel message that waits for nothing is recorded and the loop goes on |
| Consumers.AcceptFacts | packages/replay-laminate/src/main.ts:58-63 | an accepted response advances `next` by one, in order |
| Consumers.StepFacts | packages/replay-laminate/src/main.ts:46 | a step call appends that call's batch to the messages still to look at |
| Consumers.CloseOutOfFuel | packages/replay-laminate/src/main.ts:45 | a run that used up its step bound has looked at all the driver's output so far |
| Common.FlattenAppend | packages/common/src/index.ts:62-64 | flattening two runs of lists concatenates their flattenings |
| Common.FlattenCons | packages/common/src/index.ts:62-64 | flattening is in-order concatenation: the first list, then the flattening of the rest (the `misc` package's `flatten`, packages/misc/src/index.ts:41-43, is the same fold) |
| Common.FlattenLength | packages/common/src/index.ts:62-64 | the flattened length is the sum of the inner lengths |
| Common.DelimiterAt | packages/common/src/index.ts:94 | a non-zero delimiter length means the text starts with `%ls`, `%d` or `%X` |
| Common.Tokens | packages/common/src/index.ts:94 | `split` with a capture group yields an odd number of tokens |
| Common.TokensAlternate | packages/common/src/index.ts:94 | tokens at odd positions are the captured delimiters |
| Common.TokensConcat | packages/common/src/index.ts:94 | joining the tokens gives the text back |
| Common.SegmentsOf | packages/common/src/index.ts:91-99 | one segment per token |
| Common.SegmentsOfAt | packages/common/src/index.ts:94-98 | segment k is a placeholder exactly when token k starts with '%'; its index is the number of '%' tokens before it and its specifier is the token |
| Common.PlaceholderIndicesCount | packages/common/src/index.ts:96 | placeholder indices count up 0, 1, 2, … in order of appearance |
| Common.SegmentsRoundTrip | packages/common/src/index.ts:91-103 | reading the segments back, each placeholder as its specifier, gives the text |
| Common.SpecifierOfToken | packages/common/src/index.ts:100-103 | `placeholders` lists the '%' tokens in order: entry i is the specifier of placeholder i |
| Common.ParseSegments | packages/common/src/index.ts:91-104 | the segments and placeholders are those of the token list, and the segments read back as the text |
| Common.Instantiate | packages/common/src/index.ts:78-89 | an error exactly when some piece (a literal, or `args[index]`) is falsy |
| Common.InstantiateRoundTrip | packages/common/src/index.ts:78-104 | instantiating a parsed text with each placeholder's own specifier gives the text back when no token is empty |
| Common.LeadingPlaceholderNeverInstantiates | packages/common/src/index.ts:85-87 | a text that starts with a delimiter splits into an empty first literal, so it never instantiates |
| Common.ParseTemplateLine | packages/common/src/index.ts:106-112 | parsing fails exactly when the line has no space (there is no raw id to read) |
| Common.ParseTemplateLineRoundTrip | packages/common/src/index.ts:106-112 | a line "category id text" parses back to that category, id (decimal), raw id and text, and its segments read back as the text |
| Common.KeptLinesMembers | packages/common/src/index.ts:114-120 | a kept line is exactly a line that, trimmed, starts with '!', with that '!' cut |
| Common.ParseAll | packages/common/src/index.ts:119 | on success one template per kept line, each that line's parse; an error exactly when some kept line has no space |
| Common.PrettyBuffer | packages/common/src/index.ts:31-55 | the header "buffer (n):" followed by the dump lines; 1 + ceil(n/16) lines |
| Misc.PrettyBuffer | packages/misc/src/index.ts:11-35 | the dump lines with the padded offset as group column, and no header; ceil(n/16) lines |
| HexDump.ByteText | packages/common/src/index.ts:42 | every byte is three characters starting with ' ' |
| HexDump.ByteTextShape | packages/misc/src/index.ts:22 | a byte's text is ' ' + its hex padded to two digits with '0', both hex digits |
| HexDump.CellEndsWithByte | packages/common/src/index.ts:35-43 | every byte's cell ends with its three-character byte text |
| HexDump.LineSpan | packages/common/src/index.ts:44-52 | a line holds at most sixteen bytes, and every line but the last holds exactly sixteen, whatever `width` is |
| HexDump.CellAt | packages/common/src/index.ts:35-43 | the cell of byte i is its offset column, its group column and its byte text |
| HexDump.LineAt | packages/common/src/index.ts:44-52 | line k joins the cells of bytes 16k up to the line's end |
| HexDump.FullLine | packages/common/src/index.ts:44-47 | a line followed by more bytes holds sixteen cells |
| HexDump.LastLine | packages/common/src/index.ts:50-52 | the last line holds the bytes after the last multiple of sixteen |
| HexDump.CellPieces | packages/common/src/index.ts:36-42 | the one to three pieces pushed for a byte join to its cell |
| HexDump.DumpLines | packages/misc/src/index.ts:15-34 | the loop's lines are those of the pure function `Lines`: the cells grouped sixteen to a line, a partial last line flushed at the end |
| JsText.SplitOnJoin | packages/common/src/index.ts:107-108 | splitting on a character and rejoining with it gives the string back |
| JsText.SplitOnParts | packages/common/src/index.ts:107 | no part of a split holds the separator |
| JsText.Trim | packages/common/src/index.ts:116 | `trim` removes exactly the leading and trailing JavaScript white space and keeps the middle |
| JsText.ParseIntOfToString | packages/common/src/index.ts:109 | `parseInt(s, 10)` reads back the decimal numeral `toString` writes, negative numbers included |
| JsText.ParseIntOfHex | packages/common/src/index.ts:109 | `parseInt(s, 16)` reads back a `0x`-prefixed hex numeral |
| JsText.PadStartShape | packages/common/src/index.ts:37 | `padStart` keeps the text at the end and fills only in front of it |
| CardDb.ToInt32 | packages/data-loader/src/from-sqlitedb.ts:36-38 | the 32-bit image JavaScript's `&` and `>>` act on: a signed 32-bit value congruent to the input modulo 2^32 |
| CardDb.Texts | packages/data-loader/src/from-sqlitedb.ts:44-46 | the compacted hint strings are no more than the sixteen columns |
| CardDb.MkRecord | packages/data-loader/src/from-sqlitedb.ts:35-52 | every other column is copied through; level and both scales are bytes; a LINK card gets defense 0 and the raw defense as link marker, any other card keeps its defense and gets marker 0; texts are the compacted hint strings |
| CardDb.LevelFields | packages/data-loader/src/from-sqlitedb.ts:36-38 | level is the low byte, rscale the third byte and lscale the top byte of the column read modulo 2^32 |
| CardDb.LevelPacking | packages/data-loader/src/from-sqlitedb.ts:36-38 | a column packed as lscale·2^24 + rscale·2^16 + level normalises back to those three bytes |
| CardDb.LinkBit | packages/data-loader/src/from-sqlitedb.ts:40-43 | a card is LINK exactly when bit 26 of its type (modulo 2^32) is set |
| CardDb.TextsMembers | packages/data-loader/src/from-sqlitedb.ts:44-46 | a string is in `texts` exactly when it is non-empty and one of the hint columns holds it |
| CardDb.TextsAppend | packages/data-loader/src/from-sqlitedb.ts:44-46 | compaction keeps column order: compacting two runs of columns concatenates their compactions |
| CardDb.TextsAllPresent | packages/data-loader/src/from-sqlitedb.ts:44-46 | when all hint columns are present and non-empty, `texts` is all of them in order |
| Codelike.WalkedFacts | packages/replay-laminate/src/main.ts:11-22 | a walk only adds to the set, adds only numbers whose nearest enclosing key mentions "code" or "card", adds all of them when it finishes, and throws exactly when a `null` is reachable |
| Codelike.WalkItemsFacts | packages/replay-laminate/src/main.ts:13-14 | the same facts for the elements of an array from a given index on, each element walked under the array's key |
| Codelike.WalkFieldsFacts | packages/replay-laminate/src/main.ts:19-20 | the same facts for the fields of an object from a given field on, each value walked under its own key |
| Codelike.RootAndArrays | packages/replay-laminate/src/main.ts:13-24 | a bare number at the root (key '') is never collected; an array's numbers are marked under the array's key |
| Codelike.DeckCodesMarked | packages/replay-laminate/src/main.ts:73-76 | walking `{ cards: deck }` adds exactly the codes of the deck |
| Codelike.MarkSet.constructor | packages/replay-laminate/src/main.ts:71 | the set starts empty |
| Codelike.MarkSet.Walk | packages/replay-laminate/src/main.ts:12-22 | the set afterwards, and whether the walk finished, are those of the walk function from the set before |
| Codelike.MarkSet.ExtractCodelike | packages/replay-laminate/src/main.ts:11-25 | the walk from the root key ''; the set grows by exactly the marked numbers and never shrinks |
| CoreApi.Wrapper.constructor | packages/engine-native/engine/coreapi.cc:174-178 | a new table holds no duel and its counter starts at 0 |
| CoreApi.Wrapper.Lookup | packages/engine-native/engine/coreapi.cc:186-193 | an id in the table gives its duel, any other id gives the null handle 0 |
| CoreApi.Wrapper.Acquire | packages/engine-native/engine/coreapi.cc:179-184 | the 32-bit counter steps by one with wrap-around and `insert` never overwrites; before the wrap the id is new, larger than all earlier ids, looks up to the duel, and every other lookup is unchanged |
| CoreApi.Wrapper.Release | packages/engine-native/engine/coreapi.cc:195-198 | only the released id leaves the table and it looks up to 0 afterwards; the table invariant is kept |
| CoreApi.ReleasedNotReacquired | packages/engine-native/engine/coreapi.cc:179-198 | before the counter wraps, the next id handed out is never one already released |
| CoreApi.UnknownDuelStillEnded | packages/engine-native/engine/coreapi.cc:242-294 | as written, an unknown id raises the TypeError and `end_duel` is still called on the null handle |
| CoreApi.EndDuelChecked | packages/engine-native/engine/coreapi.cc:284-297 | the intended `endDuel`: no exception exactly when the duel is known, and the engine is asked to end it exactly then |
| CoreApi.Copied | packages/engine-native/engine/coreapi.cc:468-469 | the copy is 64 bytes: the buffer's bytes, then the memory after it |
| CoreApi.OversizedResponseStillSet | packages/engine-native/engine/coreapi.cc:454-475 | as written, a response longer than 64 bytes raises the RangeError and its first 64 bytes still reach `set_responseb` |
| CoreApi.ShortResponseReadsBeyond | packages/engine-native/engine/coreapi.cc:468-472 | as written, a one-byte response reaches the engine padded with whatever memory follows it |
| CoreApi.SetResponseCheckedMeaning | packages/engine-native/engine/coreapi.cc:454-475 | the intended `setResponse` calls the engine exactly when the duel is known and the response fits in 64 bytes, with exactly those bytes, and otherwise raises the matching exception |
| CoreApi.CheckedAgreesWhenAccepted | packages/engine-native/engine/coreapi.cc:454-475 | on accepted inputs the written and the intended `setResponse` raise nothing and pass the same leading bytes |
| CoreApi.CoreEngine.constructor | packages/engine-native/engine/coreapi.cc:201-214 | a new binding has an empty duel table and has made no engine call |
| CoreApi.CoreEngine.CreateDuel | packages/engine-native/engine/coreapi.cc:253-266 | the created duel gets the next id, which looks up to it |
| CoreApi.CoreEngine.EndDuel | packages/engine-native/engine/coreapi.cc:284-297 | the call log grows by the intended `endDuel`'s calls; a known id is ended and released, an unknown one leaves the table alone |
| CoreApi.CoreEngine.SetResponse | packages/engine-native/engine/coreapi.cc:454-475 | the call log grows by the intended `setResponse`'s calls and the exception is the one it raises |
| CoreApi.ReadCardMeaning | packages/engine-native/engine/coreapi.cc:104-119 | `read_card` returns 0 exactly when an engine is current and knows the code, and then copies its record; otherwise it returns 1 and leaves the record alone |
| CoreApi.SuffixesStep | packages/engine-native/engine/coreapi.cc:151-156 | one step of the scan: a '/' adds the text after it as the next probe, any other character adds nothing |
| CoreApi.FirstHitSkip | packages/engine-native/engine/coreapi.cc:122-136 | `try_script` on a missing name falls through to the next probe |
| CoreApi.ReadScript | packages/engine-native/engine/coreapi.cc:138-163 | the loop returns the content of the first stored probe: the exact name, then the text after each '/', left to right; the empty dummy when none is stored; null with no current engine |
| CoreApi.SuffixesMembers | packages/engine-native/engine/coreapi.cc:151-156 | the probes after the exact name are exactly the texts following a '/' of it |
| CoreApi.FirstHitMeaning | packages/engine-native/engine/coreapi.cc:147-156 | the script read is the content of some stored probe and no earlier probe is stored; nothing is read exactly when no probe is stored |
| CoreApi.ExactNameWins | packages/engine-native/engine/coreapi.cc:147-149 | a script stored under the exact name is the one read |
| CoreApi.ScriptMisses | packages/engine-native/engine/coreapi.cc:138-163 | with no current engine the result is null; a name none of whose probes is stored reads as the one-byte dummy of length 0 |
| CoreApi.SplitProcess | packages/engine-native/engine/coreapi.cc:351-353 | the length is the low 16 bits, the flags the arithmetic shift of the rest, and together they rebuild the result |
| CoreApi.SplitProcessInverse | packages/engine-native/engine/coreapi.cc:351-353 | splitting a packed length and flags gives them back |
| Board.Coordinate | packages/player2d/src/player/index.ts:125-128 | player 0 keeps the grid cell of `_coordinate`; every other controller gets both coordinates negated |
| Board.Layout | packages/player2d/src/player/index.ts:130-134 | the pixel position is the grid cell scaled by entity height 72 plus gap 6, i.e. 78 per unit |
| Board.Mirror | packages/player2d/src/player/index.ts:110-134 | player 1's cell and pixel position are player 0's reflected through the centre of the board |
| Board.ExtraMonsterZonesShared | packages/player2d/src/player/index.ts:110-134 | player 0's monster zone 5 is drawn where player 1's zone 6 is, and zone 6 where player 1's zone 5 is |
| Board.PilesIgnoreSequence | packages/player2d/src/player/index.ts:116-119 | deck, grave, extra and banished cards of one controller are drawn at the same place whatever their sequence |
| Board.SlotsDistinct | packages/player2d/src/player/index.ts:110-123 | two different zones or piles of one player never share a cell, and none shares a cell with any hand position |
| Board.PileTestMeaning | packages/player2d/src/player/index.ts:480-483 | `isToPile` is truthy exactly when the OVERLAY bit is clear and one of DECK, GRAVE, EXTRA, REMOVED is set |

## Left out

- Listeners of the duel client other than `onLog` and `onHintMessage` (`onMove`, `onAdjustSequence`, `onHighlightCode`, …): each is a notification with no effect on the client's state, so MSG_HINT of HINT.CARD or HINT.EFFECT changes nothing in the model.
- `console.log`, `console.warn` and `console.error` output: logging only.
- The HINT.ZONE rendering (packages/duel-client/src/index.ts:494-523): commented out in the source, so that hint changes nothing.
- All template categories but `system`: the client renders no other category.
- `DuelBoard.Put`: models the collide check of the debugging configuration, which refuses a card already in the target container. Without that check `put` would list such a card twice; the only message that can do this is MSG_SWAP of two cards of one container.
- `DuelClient.DuelState.Handle`: validity after MSG_START is proved only from empty decks. `init` pushes onto the containers it finds, so a second MSG_START keeps the cards of the first.
- `DuelHandle.Handle`: when a handler throws, the value model returns only the error. The program keeps what it did before the throw: the dirty flag, controller and location `put` sets before an invalid location is refused, a card `remove` took before a failing `put` of MSG_MOVE or MSG_SWAP, cards `init` pushed before a third player's `locate` throws, and the texts already logged.
- `DuelClient.DuelState.Handle`: on an error its contract says nothing about the board, the counters or the log, which hold the partial effects listed for `DuelHandle.Handle`; only the error itself is stated.
- `DuelHandle.Dispatch`: MSG_CONFIRM_EXTRATOP is handled with the corrected start index `poff - 1` of "## Findings", not the index `length - poff - 1` that packages/duel-client/src/index.ts:547-548 computes. The as-written reading is `DuelHandle.ConfirmExtraTopAsWritten`, which `ExtraTopKeepsValid` also covers.
- `DuelHandle.DispatchNotes`: the same corrected MSG_CONFIRM_EXTRATOP.
- `DuelHandle.Handle`: the same corrected MSG_CONFIRM_EXTRATOP, through `Dispatch`.
- `DuelClient.DuelState.ConfirmExtraTop`: reads from the corrected start index, as `DuelHandle.ConfirmExtraTop` does.
- `DuelClient.DuelState.NotesMessage`: the same corrected MSG_CONFIRM_EXTRATOP, through `ConfirmExtraTop`.
- `DuelClient.DuelState.Dispatch`: the same corrected MSG_CONFIRM_EXTRATOP, through `NotesMessage`.
- `DuelClient.DuelState.Handle`: the same corrected MSG_CONFIRM_EXTRATOP, through `Dispatch`.
- `CoreApi.CoreEngine.EndDuel`: performs the corrected `EndDuelChecked`, which returns after the TypeError. The program goes on to `end_duel` on the null duel and `release` of the id (packages/engine-native/engine/coreapi.cc:284-297); that reading is `EndDuelAsWritten`.
- `CoreApi.CoreEngine.SetResponse`: performs the corrected `SetResponseChecked`, which returns after each failed check and passes only the buffer's bytes. The program copies 64 bytes and calls `set_responseb` even after the RangeError (packages/engine-native/engine/coreapi.cc:454-475); that reading is `SetResponseAsWritten`.
- The card database and the template tables: the `query` callback is a map from card code to record, and the strings.conf template tables are a map from id to template.
- The ocgcore engine library, `dlopen`/`dlsym`, the N-API argument marshalling and the data and script stores: library plumbing. Their lookups are maps, and engine calls are recorded as values in call order.
- LZMA decompression, the Mersenne-Twister generator behind `ReplayReader.seed()` and the UTF-16 decoding of player names: foreign libraries, taken as the parameters `decompress` (which may fail, giving `Err`) and `decodeName`, and the seed is not modelled.
- `parseMessage` and `isQuestionMessage` of the message-protocol package: the message parser is a parameter, and a message is a `Protocol.Message` value.
- `Consumers.LaminateLoop`: the source loops `while (true)`. Here a bound on `step` calls (`fuel`) makes the loop total, and a run that uses it all up is reported as still running.
- `Consumers.ValidateLoop`: the same bound on `step` calls as `laminate`.
- `HostDriver.MessageQueue.Fill`: requires that some later `pump` returns a non-empty batch or fails, because the real engine never stops producing messages. `Pull`, `Peek`, `HostDriver.DuelState.Step`, `HostDriver.DuelState.Feed` and the driver's `Step` and `Feed` require the same.
- `CardDb.MkRecord`: database columns are taken to hold integers, so no floating-point value reaches the bit operations.
- `Codelike.MarkSet.ExtractCodelike`: numbers are taken to be integers. The copy of `extractCodelike` in packages/player2d/src/player/assets.ts is the same code and is modelled once.
- The `flatten` of the misc package: it is the same left fold as `Common.Flatten`, so it is written once.
- Unimplemented messages MSG_SHUFFLE_EXTRA, MSG_SWAP_GRAVE_DECK, MSG_REVERSE_DECK, MSG_DECK_TOP, MSG_SHUFFLE_SET_CARD and MSG_FIELD_DISABLED: each only clears the dirty flags and records the message, as the source does.
- Command-line tools, SQLite and file I/O (`loadFromSqliteDB`, the yargs commands, `dump-database`, `echo`/`echoln`): I/O with no logic to verify.
- `DuelState.update` and `ClientCard.update` (packages/duel-client/src/index.ts:94-104, 380-389): the card-update entry point for callers outside `handle`. It is not part of this model.
- `PromisePool` and `parallel`: asynchronous concurrency.
- The Pixi rendering, animation and DOM code of the 2D player, `loadAssets`, and the `timeline` generator: UI, timers and network.

## Findings

| source | as written | input that shows it | evidently intended | confidence | as-written member | corrected member |
|---|---|---|---|---|---|---|
| packages/duel-client/src/index.ts:547-548 | MSG_CONFIRM_EXTRATOP reveals from index `length - poff - 1`, where `poff` is the index of the first face-up card | an extra deck of five cards with only the bottom one face-down (`poff` = 1): the written index is 3, a face-up card | reveal the face-down cards on top of the face-up part, from index `poff - 1` (0 here) | not executed | DuelHandle.ExtraTopAsWrittenRevealsFaceUp | DuelHandle.ConfirmExtraTopEffect |
| packages/engine-native/engine/coreapi.cc:454-475 | after the RangeError for a response over 64 bytes, `setResponse` keeps running and hands the engine the first 64 bytes | a 65-byte response to a known duel | return once the exception is raised, without setting a response | not executed | CoreApi.OversizedResponseStillSet | CoreApi.SetResponseCheckedMeaning |
| packages/engine-native/engine/coreapi.cc:468-469 | `memcpy` copies 64 bytes whatever the buffer's length, so a short response is padded with the memory after it | the one-byte response `[7]`: two different neighbouring memories give the engine two different responses | copy only the buffer's bytes | not executed | CoreApi.ShortResponseReadsBeyond | CoreApi.CheckedAgreesWhenAccepted |
| packages/engine-native/engine/coreapi.cc:284-297 | `CHECK_DUEL` raises the TypeError for an unknown id but does not return, so `endDuel` still calls `end_duel` on the null duel | `endDuel` of an id that was never acquired | return once the TypeError is raised | not executed | CoreApi.UnknownDuelStillEnded | CoreApi.EndDuelChecked |
