/** The Splendor engine's wire types (its protobuf messages), as values. Protobuf
    `Option` wrappers that the engine always fills in (`Some(...)` on construction,
    `unwrap()` on use) are left out. */
module SplendorPb {

  /** ResourceType. Agate .. Sapphire are the five gems; Gold is the wildcard. The
      engine indexes resource maps by these values, so they are 0 .. 5 in this order. */
  const AGATE := 0
  const EMERALD := 1
  const DIAMOND := 2
  const RUBY := 3
  const SAPPHIRE := 4
  const GOLD := 5

  datatype ResourceEntry = ResourceEntry(resourceType: int, number: int)

  /** A ResourceMap is the list of its entries; the engine addresses entry `t` by
      position, expecting it to be the entry of resource type `t`. */
  type ResourceMap = seq<ResourceEntry>

  datatype Development = Development(price: ResourceMap, resourceType: int, points: int)

  datatype Noble = Noble(capital: ResourceMap, points: int)

  datatype StartGameSettings = StartGameSettings(roundTime: int)

  /** What everybody sees of one tier: the size of its hidden deck and its face-up cards. */
  datatype DevelopmentLevelState = DevelopmentLevelState(deckNum: int, cards: seq<Development>)

  /** What everybody sees of one player: the reserved cards only as a count. */
  datatype PlayerStatePub = PlayerStatePub(
    development: ResourceMap,
    resource: ResourceMap,
    nobles: seq<Noble>,
    reservedNum: int,
    points: int)

  datatype GameStatePub = GameStatePub(
    devLevel1: DevelopmentLevelState,
    devLevel2: DevelopmentLevelState,
    devLevel3: DevelopmentLevelState,
    resourcesOnBoard: ResourceMap,
    noblesOnBoard: seq<Noble>,
    playerStates: seq<PlayerStatePub>)

  datatype GameStart = GameStart(firstPlayer: int, state: GameStatePub)

  /** UserOperation: take tokens, buy a card (developmentLevel < 0 buys a reserved
      card), or reserve a card (index < 0 reserves the top of the tier's deck). */
  datatype UserOperation =
    | Take(resources: seq<int>)
    | Purchase(developmentLevel: int, index: int)
    | Reserve(developmentLevel: int, index: int)

  datatype NotifyMsg =
    | GameStartMsg(gameStart: GameStart)
    | State(state: GameStatePub)
    | LastUserOperation(op: UserOperation)
    | ReserveRsp(card: Development)
}
