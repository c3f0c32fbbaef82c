/** The UNO engine's wire types (its protobuf messages), as values. Protobuf `Option`
    wrappers that the engine always fills in are left out. */
module UnoPb {

  /** CardColor. Black is the colour of the two wild cards. */
  datatype CardColor = Red | Yellow | Green | Blue | Black

  /** CardText. Empty marks a flipped draw card whose penalty does not apply. */
  datatype CardText =
    | Zero | One | Two | Three | Four | Five | Six | Seven | Eight | Nine
    | Skip | Reverse | DrawTwo | Wild | DrawFour | Empty

  datatype Card = Card(color: CardColor, text: CardText)

  /** The settings of a game; the engine stores them and never reads them. */
  datatype StartGameSettings = StartGameSettings

  /** UserOperation: draw `number` cards, skip the turn (the protobuf Skip), or play a
      card and name the colour to follow. Unrecognised stands for any other variant of
      the protobuf `oneof`, which the engine's dispatch ignores; NoOperation for a
      message whose `oneof` is unset. */
  datatype UserOperation =
    | Draw(number: int)
    | SkipTurn
    | Play(card: Card, nextColor: int)
    | Unrecognised
    | NoOperation

  datatype NotifyMsg =
    | GameStartMsg(initHandcards: seq<Card>, flippedCard: Card, firstPlayer: int)
    | DrawMsg(number: int)
    | DrawRsp(cards: seq<Card>)
    | SkipMsg
    | PlayMsg(card: Card, nextColor: int)
}
