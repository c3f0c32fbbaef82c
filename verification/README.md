# Splendor and UNO game providers, modelled in Dafny

RustProvider hosts two card-game engines, Splendor and UNO, behind one message
interface. Each engine is a state machine. Its registry (`GlobalState`) maps a room id
to that room's game (`GameState`), and it also holds the room and user of the request
being handled. The machine has four handlers:

- the registration acknowledgement;
- the start of a game, which creates a room and deals the opening;
- a state query;
- a user operation.

A user operation is Take, Purchase or Reserve in Splendor, and Draw, Skip or Play in
UNO. Each handler answers with a list of outbound messages. A message either notifies
one user, notifies the whole room, notifies the room except one user, or closes a
room.

The project models these parts of the source:

- `splendor/src/state.rs` and `splendor/src/state_machine.rs`;
- `uno/src/card.rs`, `uno/src/state.rs` and `uno/src/state_machine.rs`.

Every Rust struct whose fields the engine updates in place is a Dafny `class`. That
covers the registries, games, boards, tiers, players and the UNO deck. Their `Valid()`
predicates say which objects each one owns. The operations are methods with
`modifies` clauses. Their loops (the deals, the token transfers, the noble checks and
the flip loop) keep their loop form. Each method is proved against value-level
predicates: `Took`, `Bought`, `PickForPurchase`, `PickForReserve`, `Drew`, `Played` and
`Opened`. Conservation and partition lemmas are then proved about those predicates.

A panic of the engine (an `unwrap` on a missing key, an `assert!`, indexing past the
end, `pop().unwrap()` on an empty deck, `gen_range` over an empty range) becomes a
`Fault` result, and so does a loop that can never end. The fault says which kind of
panic it stands for. The register and user-operation transitions check in advance
whether the source would panic. A register transition is proved to succeed exactly
when the reply's `err` is `NoError`, and a user-operation transition exactly when its
`CanApply` predicate holds. Starting a game differs between the two engines. In
Splendor, `GameState::new` panics before `new_game` inserts anything, so every start
faults and the registry never changes. In UNO, `new_game` inserts the room before
`game_start` can panic, so a start that faults keeps that room. When the deal runs out
of cards (16 or more ids), the kept room's deck is untouched, because the model checks
for enough cards before dealing any.

## Where the code differs from the natural reading

The model follows the code in each of these cases.

- **Splendor cannot open a room.**
  - `get_multi_rand_nums(num, Agate, Sapphire)` keeps what `split_off(num)` leaves. That is the `4 - num` values after the first `num`, not `num` values (`GetMultiRandNums`, `DrawMatchesOnlyPairs`).
  - Card and noble construction asserts that the counts match. So only two-number templates can ever produce a card.
  - Level one has no such template (`LevelOneHasNoPair`), so by the contract of `FromTemplates`, `new_level1` never returns a tier.
  - The first noble of `rand_nobles` asks for three gems and always fails the same way.
  - So `BoardState::new` panics at its first tier, and with it every Splendor `new_game`: no room is ever added (`NewLevel1`, `BoardState.New`, `GameState.New`, `NewGame`, `TransitionStartGameArgs` all state that they fault). The steps after that panic (tiers two and three, the nobles, the insert and `game_start`) are modelled on their own, and the transitions on existing rooms are modelled and proved for any valid registry.
- **`DevCardsLevelState::take` with a non-empty deck returns the card it pops from the deck.** It also writes that card into the face-up slot. The card that was in the slot is dropped (`TakeFromTierCards`, `PurchasePickCards`, `ReservePickCards`). A natural reading has the slot's card handed out and replaced.
- **A Splendor player's token map has five entries and no Gold entry.**
  - A Reserve while the board still holds Gold indexes entry Gold of that map and panics (`Allowed`).
  - A Take that lists Gold panics the same way.
- **The flipped UNO card leaves the deck.** `game_start` draws it and never puts it back. So once a game has opened, deck and hands hold 107 cards (`Opened`).
- **The UNO flip loop can hang.** Black cards go back to the bottom of the pile. The loop searches the draw pile, or the discard pile when the draw pile is empty. If every card in the pile it searches is Black, the loop never ends, even when the other pile holds a card that is not Black (`Flippable`).
  - With a full deck, 15 players leave three cards, which can all be Black.
  - 16 or more players run out of cards while dealing.
  - An empty id list makes `gen_range` panic (`UnoState.GameState.GameStart`, `UnoState.GlobalState.NewGame`).
- **UNO with a repeated user id still deals one hand per listed id.** Only the distinct ids receive a hand. The hands dealt for repeated ids leave the game (`Opened`).
- **UNO Play does not look at the player's hand.** The count simply goes down by one and can become negative. The room closes when it reaches zero. Skip looks nothing up (`TransitionPlay`, `TransitionSkip`).

## Model

| member | source | states |
|---|---|---|
| SplendorSetup.DefaultResourceMap | splendor/src/state.rs:294-303 | one zero entry per gem, in type order, and no entry for Gold |
| SplendorSetup.GetMultiRandNums | splendor/src/state.rs:243-248 | the result holds `(max - min) - num` distinct values in `min..max`: the shuffle after its first `num` values |
| SplendorSetup.DrawMatchesOnlyPairs | splendor/src/state.rs:243-248 | a draw from the four gems yields as many types as asked for if and only if two are asked for |
| SplendorSetup.GetARandNoble | splendor/src/state.rs:250-260 | a noble worth 3 points whose k-th requirement pairs the k-th drawn type with the k-th number; the lengths must match |
| SplendorSetup.GetARandDev | splendor/src/state.rs:262-275 | the price pairs all but the last type and number; the last type is the colour and the last number the points |
| SplendorSetup.GetRandDevs | splendor/src/state.rs:277-292 | a result is `num` cards, each built from a two-number template; only two-number templates guarantee a result; no two-number template guarantees a failure |
| SplendorSetup.LevelOneHasNoPair | splendor/src/state.rs:149-156 | no level-one template has two numbers |
| SplendorSetup.LevelsTwoAndThreeMix | splendor/src/state.rs:158-177 | levels two and three each mix two-number templates with others |
| SplendorSetup.PairCardWellFormed | splendor/src/state.rs:262-292 | a card built from non-negative templates has a gem colour and a gem price |
| SplendorRules.Production | splendor/src/state.rs:217-221 | per gem, the number of owned cards of that colour |
| SplendorRules.Reverse | splendor/src/state_machine.rs:115 | the nobles in reverse order, element by element |
| SplendorRules.NoblePointsReverse | splendor/src/state_machine.rs:115-119 | the order of acquisition does not change the points gained |
| SplendorRules.SplitMembers | splendor/src/state_machine.rs:101-119 | a board noble stays if and only if it is not satisfied, and is acquired if and only if it is satisfied; nothing else stays or is acquired |
| SplendorRules.NoblesPartition | splendor/src/state_machine.rs:101-119 | every noble on the board either stays or is acquired, and none is lost or duplicated |
| SplendorMoves.TakeFitsCounts | splendor/src/state_machine.rs:68-71 | a Take that goes through asks only for gems, never for more of one than the pool holds, and never for Gold |
| SplendorMoves.TookConserves | splendor/src/state_machine.rs:68-71 | a Take keeps every gem's total over the pool and the player, keeps Gold, and keeps the pool non-negative |
| SplendorMoves.TakeFromTierCards | splendor/src/state.rs:186-195 | an empty deck hands out the slot's card; otherwise the deck's top is handed out and also stays face up, and the slot's card is the one lost |
| SplendorMoves.PurchasePickCards | splendor/src/state_machine.rs:84-92 | the card bought leaves the cards in reach; from a tier with a deck, the displaced face-up card is what leaves instead |
| SplendorMoves.PickForReserve | splendor/src/state_machine.rs:133-146 | the reserved card joins the end of the reserve |
| SplendorMoves.ReservePickCards | splendor/src/state_machine.rs:133-146 | a Reserve loses no card, except the displaced face-up card of a tier with a deck |
| SplendorMoves.PopTopCards | splendor/src/state_machine.rs:138-145 | reserving a deck's top card moves it into the reserve and loses nothing |
| SplendorMoves.PointsAfterPurchase | splendor/src/state_machine.rs:93-94 | the player's points grow by the card's points and by the points of the nobles gained |
| SplendorMoves.BoughtConserves | splendor/src/state_machine.rs:93-119 | a purchase keeps every gem's total over pool and player, keeps every noble on the board or with the player, and keeps points equal to what cards and nobles are worth |
| SplendorMoves.NoblesStayWellFormed | splendor/src/state_machine.rs:115-119 | the nobles on the board and with the player stay well formed |
| SplendorState.TakeFrom | splendor/src/state.rs:186-195 | the tier loses one card and hands it out; with a deck, the popped card replaces the slot; without one, the slot is removed |
| SplendorState.DevCardsLevelState.FromTemplates | splendor/src/state.rs:153-155 | a tier of `total` cards, four of them face up; it succeeds for two-number templates and fails when there are none |
| SplendorState.DevCardsLevelState.NewLevel1 | splendor/src/state.rs:149-156 | always panics: no level-one template is a pair, so no card can be built |
| SplendorState.DevCardsLevelState.NewLevel2 | splendor/src/state.rs:158-166 | a tier of 30 cards with four face up |
| SplendorState.DevCardsLevelState.NewLevel3 | splendor/src/state.rs:168-177 | a tier of 20 cards with four face up |
| SplendorState.DevCardsLevelState.Take | splendor/src/state.rs:186-195 | the tier and the card handed out are those of TakeFrom |
| SplendorState.DevCardsLevelState.TierViewHidesDeck | splendor/src/state.rs:179-184 | the public view shows the face-up cards and only the size of the deck |
| SplendorState.TakeFromKeepsWellFormed | splendor/src/state.rs:186-195 | taking from a tier of well-formed cards leaves well-formed cards |
| SplendorState.BoardState.New | splendor/src/state.rs:87-106 | always panics, at tier one (NewLevel1) |
| SplendorState.BoardState.RandNobles | splendor/src/state.rs:108-127 | five pairwise distinct nobles: three asking 3 of three gems, then two asking 4 of two gems |
| SplendorState.BoardState.EndingDrawExists | splendor/src/state.rs:111-124 | at every step some draw ends the retry loop |
| SplendorState.BoardState.TakeResource | splendor/src/state.rs:129-134 | one token of the type leaves the pool, which must hold one; nothing else changes |
| SplendorState.BoardState.ReturnResource | splendor/src/state.rs:136-140 | every pool entry grows by the price's total for its type |
| SplendorState.PlayerState.constructor | splendor/src/state.rs:207-215 | a player without cards, nobles, reservations or points, with five empty token counters |
| SplendorState.PlayerState.GetPubState | splendor/src/state.rs:217-230 | the public view counts the player's cards per colour and shows only the number of reserved cards |
| SplendorState.PlayerState.PlayerViewHidesReserved | splendor/src/state.rs:217-230 | two players differing only in which cards they reserved look the same |
| SplendorState.PlayerState.TakeResource | splendor/src/state.rs:232-234 | one more token of the type; nothing else changes |
| SplendorState.PlayerState.SpendResource | splendor/src/state.rs:236-240 | every counter shrinks by the price's total for its type |
| SplendorState.GameState.NewPlayers | splendor/src/state.rs:44-47 | one distinct new player per listed id |
| SplendorState.GameState.New | splendor/src/state.rs:41-55 | always panics, in BoardState::new, after building the players |
| SplendorState.GameState.PubStateShowsPlayers | splendor/src/state.rs:64-77 | the public state shows the pool and nobles as they are and each player's view exactly once, in the map's order |
| SplendorState.GameState.GameStart | splendor/src/state.rs:57-62 | succeeds if and only if there are players; the first player is below player_num; the state is the public state |
| SplendorState.GlobalState.constructor | splendor/src/state.rs:16-22 | an empty registry with room and user -1 |
| SplendorState.GlobalState.AddRoom | splendor/src/state.rs:28 | the insert of new_game: exactly the new room is added and the others keep their games (not reached, as GameState::new panics first) |
| SplendorState.GlobalState.NewGame | splendor/src/state.rs:24-30 | always faults and changes nothing: a room id in use is RoomExists, and otherwise GameState::new panics before the insert |
| SplendorMachine.TakeTokens | splendor/src/state_machine.rs:68-71 | each listed token moves from the pool to the player's counter; nothing else changes |
| SplendorMachine.TakeInGame | splendor/src/state_machine.rs:64-71 | the holdings of the player and board change as Took says |
| SplendorMachine.TakeInRoom | splendor/src/state_machine.rs:60-71 | Take in the room: only that room's board and player change, as Took says |
| SplendorMachine.NobleWillVisit | splendor/src/state_machine.rs:104-110 | true exactly when the production meets every requirement of the noble |
| SplendorMachine.NoblesWillVisit | splendor/src/state_machine.rs:101-114 | the positions of exactly the satisfied nobles, in increasing order |
| SplendorMachine.RemovalDone | splendor/src/state_machine.rs:115-119 | removing the satisfied positions from the last leaves the unsatisfied nobles and hands over the satisfied ones in reverse |
| SplendorMachine.AwardNobles | splendor/src/state_machine.rs:115-119 | the board keeps the unsatisfied nobles; the player gains the satisfied ones in reverse, with their points |
| SplendorMachine.PayForCard | splendor/src/state_machine.rs:93-98 | the card and its points join the player; its price moves from the player's counters to the pool |
| SplendorMachine.ReceiveNobles | splendor/src/state_machine.rs:100-119 | the nobles satisfied by the new production move to the player |
| SplendorMachine.BuyCard | splendor/src/state_machine.rs:93-119 | the holdings change as Bought says |
| SplendorMachine.SelectCard | splendor/src/state_machine.rs:84-92 | the stock and the card are those of PickForPurchase, and the holdings are unchanged |
| SplendorMachine.PurchaseCard | splendor/src/state_machine.rs:84-119 | a Purchase: the card of PickForPurchase is bought as Bought says |
| SplendorMachine.PurchaseInGame | splendor/src/state_machine.rs:80-119 | Purchase on the game's board and the player |
| SplendorMachine.PurchaseInRoom | splendor/src/state_machine.rs:76-121 | Purchase in the room: only that room's board and player change |
| SplendorMachine.ReserveCard | splendor/src/state_machine.rs:133-146 | the stock and the card are those of PickForReserve, and the holdings are unchanged |
| SplendorMachine.DrawForReserve | splendor/src/state_machine.rs:134-145 | the tier gives up the card PickForReserve names |
| SplendorMachine.ReserveInGame | splendor/src/state_machine.rs:128-152 | Reserve on the game's board and the player |
| SplendorMachine.ReserveInRoom | splendor/src/state_machine.rs:124-156 | Reserve in the room: only that room's board and player change |
| SplendorMachine.TakePerformed | splendor/src/state_machine.rs:60-74 | glue: assembles Performed for a Take from Took and the broadcast |
| SplendorMachine.PurchasePerformed | splendor/src/state_machine.rs:76-122 | glue: assembles Performed for a Purchase from Bought and the broadcast |
| SplendorMachine.ReservePerformed | splendor/src/state_machine.rs:124-156 | glue: assembles Performed for a Reserve from the card move, the private message and the broadcast |
| SplendorMachine.SplendorStateMachine.constructor | splendor/src/state_machine.rs:42-44 | a machine over an empty registry |
| SplendorMachine.SplendorStateMachine.TransitionRegisterRet | splendor/src/state_machine.rs:18-21 | accepted if and only if registration succeeded; nothing is sent |
| SplendorMachine.SplendorStateMachine.TransitionQueryStateArgs | splendor/src/state_machine.rs:30-32 | nothing is sent |
| SplendorMachine.SplendorStateMachine.TransitionStartGameArgs | splendor/src/state_machine.rs:23-28 | always faults and changes nothing, as new_game does; a room id in use is RoomExists |
| SplendorMachine.SplendorStateMachine.TransitionTake | splendor/src/state_machine.rs:60-74 | goes through if and only if CanApply holds; a missing room or player is MissingKey; a fault changes nothing; success is Outcome |
| SplendorMachine.SplendorStateMachine.TransitionPurchase | splendor/src/state_machine.rs:76-122 | goes through if and only if CanApply holds; a fault changes nothing; success is Outcome |
| SplendorMachine.SplendorStateMachine.TransitionReserve | splendor/src/state_machine.rs:124-156 | goes through if and only if CanApply holds; a fault changes nothing; success is Outcome, with the private message for a deck card |
| SplendorMachine.SplendorStateMachine.TransitionUserOperation | splendor/src/state_machine.rs:46-58 | the operation's Outcome followed by its echo to the room except the user |
| SplendorMachine.SplendorStateMachine.TransitionUserOperationArgs | splendor/src/state_machine.rs:34-38 | sets the current room and user, then answers as TransitionUserOperation; no room is added or removed |
| UnoCard.NonWildColors | uno/src/card.rs:26-28 | the four distinct colours that are not Black |
| UnoCard.NonWildTexts | uno/src/card.rs:29-36 | the thirteen distinct texts other than Wild, DrawFour and Empty |
| UnoCard.InitialPileLength | uno/src/card.rs:22-58 | the initial pile holds 108 cards |
| UnoCard.InitialPileCount | uno/src/card.rs:22-58 | one of each coloured Zero, two of every other coloured card, four Wild and four DrawFour |
| UnoCard.Deck.constructor | uno/src/card.rs:13-20 | a new deck holds the full deck in its pile and an empty discard pile |
| UnoCard.Deck.Init | uno/src/card.rs:22-58 | the pile becomes a shuffle of the full deck and the discard pile empty |
| UnoCard.Deck.PushColour | uno/src/card.rs:37-44 | one colour's cards are pushed onto the front of the pile |
| UnoCard.Deck.Shuffle | uno/src/card.rs:57 | the pile is a permutation of what it was |
| UnoCard.Deck.Draw | uno/src/card.rs:71-77 | fails if and only if both piles are empty; otherwise one card leaves the deck: the pile's front, or, with an empty pile, a card of the shuffled discard pile |
| UnoCard.Deck.DrawNum | uno/src/card.rs:79-85 | succeeds if and only if 0 <= num <= cards in the deck; a negative num overflows the capacity; `num` cards leave the deck; they are the pile's front when it holds enough, and otherwise the whole old pile followed by cards of the old discard pile, which ends empty and, with the new pile, holds exactly the rest of the old discard pile |
| UnoCard.Deck.DealInitHandcards | uno/src/card.rs:60-69 | succeeds if and only if seven cards per player are left; each hand then holds seven cards, which left the deck; rounds deal from the pile's front when it holds enough |
| UnoCard.Deck.DealRound | uno/src/card.rs:64-66 | one more card per hand, each taken from the deck in turn |
| UnoCard.Deck.PutToBottom | uno/src/card.rs:87-89 | the card joins the back of the pile |
| UnoCard.Deck.Discard | uno/src/card.rs:91-93 | the card joins the front of the discard pile |
| UnoState.Shown | uno/src/state.rs:63-72 | the flipped card keeps its colour, loses a draw text, and is otherwise unchanged |
| UnoState.FullDeckDealt | uno/src/state.rs:55-75 | after dealing from a full deck, 108 - 7p cards stay in the pile; up to 14 players leave a card that is not Black, and 15 leave some card |
| UnoState.ColouredRemains | uno/src/state.rs:62-75 | more than eight cards of a full deck include one that is not Black |
| UnoState.PlayerState.constructor | uno/src/state.rs:87-90 | a new player holds seven cards |
| UnoState.GameState.NewPlayers | uno/src/state.rs:41-44 | one distinct new player per listed id |
| UnoState.GameState.New | uno/src/state.rs:38-52 | player_num is the length of the list, one player per id holding seven cards, and a full new deck |
| UnoState.GameState.FlipStep | uno/src/state.rs:65-68 | a card is drawn; a Black one goes to the bottom and brings the first non-Black card nearer |
| UnoState.GameState.FlipCard | uno/src/state.rs:62-75 | stops if and only if the pile it searches holds a card that is not Black; that pile is the draw pile, or the discard pile when the draw pile is empty. It returns the first such card, without a draw text, and the card leaves the deck; otherwise it panics (both piles empty) or never ends |
| UnoState.GameState.HandOut | uno/src/state.rs:56-60 | the k-th user in the map's order receives the k-th hand |
| UnoState.GameState.DealHands | uno/src/state.rs:55-60 | dealing succeeds if and only if 7p cards are left; every user gets a hand of seven; the hands left the deck |
| UnoState.GameState.GameStart | uno/src/state.rs:54-80 | hands and flipped card left the deck; first player below p; a full deck opens for 1 to 14 players, may hang at 15, runs out at 16 or more and fails at 0 |
| UnoState.GlobalState.constructor | uno/src/state.rs:13-19 | an empty registry with room and user -1 |
| UnoState.GlobalState.AddRoom | uno/src/state.rs:25 | exactly the new room is added |
| UnoState.GlobalState.RemoveRoom | uno/src/state_machine.rs:98 | exactly the room is removed |
| UnoState.GlobalState.NewGame | uno/src/state.rs:21-27 | a room id in use is refused with nothing changed; otherwise the room is added even when the start fails; 1 to 14 ids always open a game, and an opening is Opened |
| UnoMachine.DrawConserves | uno/src/state_machine.rs:63-74 | a draw keeps the cards in the deck plus the players' counts |
| UnoMachine.PlayConserves | uno/src/state_machine.rs:85-102 | a play keeps the cards in the deck plus the players' counts |
| UnoMachine.DrawInGame | uno/src/state_machine.rs:66-68 | Drew: the cards drawn leave the deck, as DrawNum states (the pile's front, or the whole pile and then cards of the emptied discard pile), and the user's count grows by the number |
| UnoMachine.PlayInGame | uno/src/state_machine.rs:88-91 | the card goes on the discard pile and the user's count drops by one |
| UnoMachine.UnoStateMachine.constructor | uno/src/state_machine.rs:49-51 | a machine over an empty registry |
| UnoMachine.UnoStateMachine.TransitionRegisterRet | uno/src/state_machine.rs:19-22 | accepted if and only if registration succeeded; nothing is sent |
| UnoMachine.UnoStateMachine.TransitionQueryStateArgs | uno/src/state_machine.rs:37-39 | nothing is sent |
| UnoMachine.UnoStateMachine.TransitionStartGameArgs | uno/src/state_machine.rs:24-35 | new_game's outcome; each user with a hand gets one game-start message with that hand, the flipped card and the first player |
| UnoMachine.UnoStateMachine.TransitionUserOperationArgs | uno/src/state_machine.rs:41-45 | sets the current room and user, then dispatches the operation |
| UnoMachine.UnoStateMachine.TransitionUserOperation | uno/src/state_machine.rs:53-61 | goes through if and only if CanApply holds; a missing operation is MissingField; other operations send nothing |
| UnoMachine.UnoStateMachine.TransitionDraw | uno/src/state_machine.rs:63-74 | faults in the source's order: room, negative number, too few cards, user; success is Drew (the pile's front, or the whole pile and then cards of the emptied discard pile), announces the draw to the room and sends the cards to the user |
| UnoMachine.UnoStateMachine.TransitionSkip | uno/src/state_machine.rs:76-83 | one skip notice to the room, without any lookup |
| UnoMachine.UnoStateMachine.TransitionPlay | uno/src/state_machine.rs:85-102 | goes through if and only if the user is seated; announces the play; a count reaching zero closes and removes the room |

## Left out

- Randomness is not modelled as a generator. Shuffles, `gen_range` and template picks are arbitrary choices (`:|`), and every property holds for every choice. So replaying with a fixed seed is out of scope.
- HashMap iteration order is not modelled. It is a fixed, arbitrary listing of the keys (`order`).
- Protobuf decoding, `util::unpack`, and values outside the protobuf enums are left out. Operations arrive already decoded.
- A Splendor user operation always carries an operation, so the `unwrap` of an unset one is left out. UNO models that case as `NoOperation`.
- The `unwrap` of Play's `card` field is left out: the card is always present.
- The start-game settings are carried through and never inspected.
- The message plumbing is not part of this model: `lib.rs`, `main.rs`, `msg_builder.rs` and `rust-provider-lib`. The outbound message datatypes stand for what `msg_builder.rs` builds. The sequence id of the close-game message is not modelled.
- i32 arithmetic is unbounded. Draw's `handcards_num += number` cannot overflow in the model. User ids are taken below 2^31, so `as i32` is the identity.
- A panic ends the process in the source. In the model a register or user-operation transition returns a `Fault` and changes nothing. So a panic that comes after a partial change is modelled as if it happened first. That covers:
  - a UNO Draw with a missing user, where the cards are drawn first;
  - a UNO Play with a missing user, where the card is already on the discard pile;
  - a Splendor Take that fails part way through its token list;
  - a Splendor Reserve while the board holds Gold, where the card is already in the reserve;
  - a UNO deal that runs out of cards part way.

  Starting a UNO game is the exception: a start fault keeps the room `new_game` inserted, as the source does.
- UnoMachine.UnoStateMachine.TransitionDraw: does not model the cards drawn before the missing-user panic. A fault leaves the deck unchanged.
- SplendorMachine.SplendorStateMachine.TransitionTake: does not model the tokens already moved before a failing entry of the list. A fault changes nothing.
- Fault kinds are approximate where one check stands for several panics. For example, a Splendor Take that lists Gold is reported as the same kind as one that empties a pool entry.
- SplendorSetup.GetRandDevs: when two-number templates are mixed with others, whether the result succeeds depends on the random picks. The contract does not decide it.
- SplendorState.BoardState.RandNobles: its contract does not state that the first draw always fails; DrawMatchesOnlyPairs states it for any draw. The loop is kept as the source writes it, and a contract ruling out its completion would leave the rest of its body unreachable.
