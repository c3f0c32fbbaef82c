/** The UNO engine's state machine: how each inbound message changes the room registry
    and which messages go out. A register or user-operation transition that would
    panic returns a Fault and changes no game object; starting a game keeps the room
    new_game inserted when game_start then panics. Every draw and every play keeps
    the number of cards a room accounts for, so that the total fixed when the game
    opened lasts to its end. */
module UnoMachine {
  import opened Provider
  import opened UnoPb
  import opened UnoCard
  import opened UnoState

  type Msgs = seq<ProviderMsg<NotifyMsg>>

  /** What the user operations change in a room: the draw pile, the discard pile and
      the number of cards each player is counted as holding. */
  datatype Table = Table(pile: seq<Card>, discardPile: seq<Card>, counts: map<int, int>)

  /** The table of a game as it stands. */
  ghost function TableOf(g: GameState): Table
    reads g.Repr()
  {
    Table(g.deck.pile, g.deck.discardPile, g.Counts())
  }

  /** The cards of both piles of a table. */
  ghost function Cards(t: Table): multiset<Card>
  {
    multiset(t.pile) + multiset(t.discardPile)
  }

  /** The cards a table accounts for when its players are enumerated in `order`: those
      of both piles and those the players are counted as holding. For the table of a
      valid game and the game's order this is GameState.Accounted. */
  ghost function Total(t: Table, order: seq<int>): int
    requires forall i :: 0 <= i < |order| ==> order[i] in t.counts
  {
    |Cards(t)| + Sum(t.counts, order)
  }

  /** The total of a valid game's table, in the game's order, is what the game accounts
      for. */
  lemma AccountedIsTotal(g: GameState)
    requires g.Valid()
    ensures forall i :: 0 <= i < |g.order| ==> g.order[i] in TableOf(g).counts
    ensures g.Accounted() == Total(TableOf(g), g.order)
  {
  }

  /** transition_draw's effect on the table: `cards`, `number` of them, left the deck,
      and the user is counted as holding `number` more. The cards are the front of the
      draw pile when it holds enough; otherwise the whole draw pile comes first, the
      discard pile is emptied, and the rest of the cards and the new draw pile are the
      old discard pile. */
  ghost predicate Drew(before: Table, after: Table, userId: int, number: int, cards: seq<Card>)
  {
    && userId in before.counts
    && |cards| == number
    && Cards(after) + multiset(cards) == Cards(before)
    && (number <= |before.pile| ==>
          cards == before.pile[..number] && after.pile == before.pile[number..] && after.discardPile == before.discardPile)
    && (number > |before.pile| ==>
          && cards[..|before.pile|] == before.pile && after.discardPile == []
          && multiset(cards[|before.pile|..]) + multiset(after.pile) == multiset(before.discardPile))
    && after.counts == before.counts[userId := before.counts[userId] + number]
  }

  /** transition_play's effect on the table: the card goes on top of the discard pile
      and the user is counted as holding one card fewer. */
  ghost predicate Played(before: Table, after: Table, userId: int, card: Card)
  {
    && userId in before.counts
    && after.pile == before.pile
    && after.discardPile == [card] + before.discardPile
    && after.counts == before.counts[userId := before.counts[userId] - 1]
  }

  /** A draw neither creates nor loses a card: what left the deck is counted in the
      drawing player's hand. */
  lemma DrawConserves(before: Table, after: Table, userId: int, number: int, cards: seq<Card>, order: seq<int>)
    requires Drew(before, after, userId, number, cards)
    requires IsOrderOf(order, before.counts.Keys)
    ensures forall i :: 0 <= i < |order| ==> order[i] in after.counts
    ensures Total(after, order) == Total(before, order)
  {
    SumUpdate(before.counts, order, userId, before.counts[userId] + number);
    assert |Cards(after)| + |cards| == |Cards(before)|;
  }

  /** A play neither creates nor loses a card: the card counted out of the player's hand
      lies on the discard pile. */
  lemma PlayConserves(before: Table, after: Table, userId: int, card: Card, order: seq<int>)
    requires Played(before, after, userId, card)
    requires IsOrderOf(order, before.counts.Keys)
    ensures forall i :: 0 <= i < |order| ==> order[i] in after.counts
    ensures Total(after, order) == Total(before, order)
  {
    SumUpdate(before.counts, order, userId, before.counts[userId] - 1);
    assert Cards(after) == Cards(before) + multiset{card};
  }

  /** After the counts changed at `userId` only, the map of counts is the old map with
      that entry replaced. */
  lemma CountsUpdated(game: GameState, userId: int, counts: map<int, int>, v: int)
    requires userId in game.userIdToPlayerState
    requires counts.Keys == game.userIdToPlayerState.Keys
    requires forall u :: u in game.userIdToPlayerState && u != userId ==>
      game.userIdToPlayerState[u].handcardsNum == counts[u]
    requires game.userIdToPlayerState[userId].handcardsNum == v
    ensures game.Counts() == counts[userId := v]
  {
    forall u | u in game.userIdToPlayerState
      ensures game.Counts()[u] == counts[userId := v][u]
    {
    }
    assert game.Counts().Keys == counts[userId := v].Keys;
  }

  /** draw_num and the count update of transition_draw inside one game. */
  method DrawInGame(game: GameState, userId: int, number: int) returns (cards: seq<Card>)
    requires game.Valid() && userId in game.userIdToPlayerState
    requires 0 <= number <= |game.deck.Contents()|
    modifies game.deck, game.userIdToPlayerState[userId]
    ensures Drew(old(TableOf(game)), TableOf(game), userId, number, cards)
  {
    ghost var counts := game.Counts();
    var player := game.userIdToPlayerState[userId];
    var drawn := game.deck.DrawNum(number);
    assert drawn.Ok?;
    cards := drawn.value;
    player.handcardsNum := player.handcardsNum + number;
    forall u | u in game.userIdToPlayerState && u != userId
      ensures game.userIdToPlayerState[u].handcardsNum == counts[u]
    {
      assert game.userIdToPlayerState[u] != player;
    }
    CountsUpdated(game, userId, counts, counts[userId] + number);
  }

  /** discard and the count update of transition_play inside one game. */
  method PlayInGame(game: GameState, userId: int, card: Card)
    requires game.Valid() && userId in game.userIdToPlayerState
    modifies game.deck, game.userIdToPlayerState[userId]
    ensures Played(old(TableOf(game)), TableOf(game), userId, card)
  {
    ghost var counts := game.Counts();
    var player := game.userIdToPlayerState[userId];
    game.deck.Discard(card);
    player.handcardsNum := player.handcardsNum - 1;
    forall u | u in game.userIdToPlayerState && u != userId
      ensures game.userIdToPlayerState[u].handcardsNum == counts[u]
    {
      assert game.userIdToPlayerState[u] != player;
    }
    CountsUpdated(game, userId, counts, counts[userId] - 1);
  }

  class UnoStateMachine {
    const state: GlobalState

    ghost predicate Valid()
      reads state`roomIdToGameState, state`Repr
    {
      state.Valid()
    }

    /** UnoStateMachine::new: an empty registry. */
    constructor ()
      ensures Valid() && fresh(state) && fresh(state.Repr)
      ensures state.roomIdToGameState == map[] && state.curRoomId == -1 && state.curUserId == -1
    {
      state := new GlobalState();
    }

    /** The room exists and the user plays in it: both HashMap lookups succeed. */
    ghost predicate Seated(roomId: int, userId: int)
      reads state`roomIdToGameState
    {
      && roomId in state.roomIdToGameState
      && userId in state.roomIdToGameState[roomId].userIdToPlayerState
    }

    /** The objects a user operation may change: the room's deck and the user's player;
        nothing when the lookups fail. */
    ghost function Footprint(roomId: int, userId: int): set<object>
      reads state`roomIdToGameState
    {
      if Seated(roomId, userId) then
        var g := state.roomIdToGameState[roomId];
        {g.deck, g.userIdToPlayerState[userId]}
      else {}
    }

    /** Every object of a room, or none when there is no such room. */
    ghost function RoomRepr(roomId: int): set<object>
      reads state`roomIdToGameState
    {
      if roomId in state.roomIdToGameState then state.roomIdToGameState[roomId].Repr() else {}
    }

    /** Every object a user operation may change belongs to the room, which is one of
        the registry's, and none is the registry itself. */
    lemma FootprintInRepr(roomId: int, userId: int)
      requires Valid()
      ensures Footprint(roomId, userId) <= RoomRepr(roomId) <= state.Repr - {state}
    {
      if Seated(roomId, userId) {
        var g := state.roomIdToGameState[roomId];
        assert g.userIdToPlayerState[userId] in g.Players();
      }
    }

    /** The table of room `roomId`, or an empty one when there is no such room. */
    ghost function TableAt(roomId: int): Table
      reads state`roomIdToGameState, RoomRepr(roomId)
    {
      if roomId in state.roomIdToGameState then TableOf(state.roomIdToGameState[roomId])
      else Table([], [], map[])
    }

    /** The user operation goes through for this user in this room: no lookup, unwrap
        or draw makes the engine panic. */
    ghost predicate CanApply(op: UserOperation, roomId: int, userId: int)
      reads state`roomIdToGameState, RoomRepr(roomId)
    {
      match op
      case Draw(number) =>
        Seated(roomId, userId) && 0 <= number <= |state.roomIdToGameState[roomId].deck.Contents()|
      case SkipTurn => true
      case Play(_, _) => Seated(roomId, userId)
      case Unrecognised => true
      case NoOperation => false
    }

    /** The operation `op` of the user, starting from the rooms `rooms0` and the room's
        table `before`, was performed and sent `msgs`. */
    ghost predicate Outcome(op: UserOperation, roomId: int, userId: int, rooms0: map<int, GameState>,
                            before: Table, msgs: Msgs)
      reads state`roomIdToGameState, if roomId in rooms0 then rooms0[roomId].Repr() else {}
    {
      match op
      case Draw(number) =>
        && roomId in rooms0
        && state.roomIdToGameState == rooms0
        && |msgs| == 2
        && msgs[0] == NotifyMsgArgs(roomId, 0, DrawMsg(number))
        && msgs[1].NotifyMsgArgs? && msgs[1].roomId == roomId && msgs[1].userId == userId
        && msgs[1].custom.DrawRsp?
        && Drew(before, TableOf(rooms0[roomId]), userId, number, msgs[1].custom.cards)
      case SkipTurn =>
        state.roomIdToGameState == rooms0 && msgs == [NotifyMsgArgs(roomId, 0, SkipMsg)]
      case Play(card, nextColor) =>
        && roomId in rooms0
        && |msgs| >= 1 && msgs[0] == NotifyMsgArgs(roomId, 0, PlayMsg(card, nextColor))
        && var after := TableOf(rooms0[roomId]);
           && Played(before, after, userId, card)
           && userId in after.counts
           && if after.counts[userId] == 0 then
                msgs == [msgs[0], CloseGameArgs(roomId)] && state.roomIdToGameState == rooms0 - {roomId}
              else
                |msgs| == 1 && state.roomIdToGameState == rooms0
      case Unrecognised =>
        state.roomIdToGameState == rooms0 && msgs == []
      case NoOperation => false
    }

    /** transition_register_ret: accepted exactly when the registration succeeded;
        nothing is sent. */
    method TransitionRegisterRet(msg: RegisterRet) returns (r: Result<Msgs>)
      ensures r.Ok? <==> msg.err == NoError
      ensures r.Ok? ==> r.value == []
      ensures r.Fault? ==> r.fault == RegisterRejected
    {
      if msg.err != NoError {
        return Fault(RegisterRejected);
      }
      return Ok([]);
    }

    /** transition_query_state_args: nothing changes and nothing is sent. */
    method TransitionQueryStateArgs(msg: QueryStateArgs) returns (r: Msgs)
      ensures r == []
    {
      return [];
    }

    /** transition_start_game_args: a new game in the given room, and to each user who
        received a hand, in the HashMap's iteration order, that hand with the flipped
        card and the first player. */
    method TransitionStartGameArgs(msg: StartGameArgs<StartGameSettings>)
      returns (r: Result<Msgs>, ghost opening: Opening, ghost msgOrder: seq<int>)
      requires Valid()
      modifies state`roomIdToGameState, state`Repr
      ensures Valid()
      ensures msg.roomId in old(state.roomIdToGameState) ==>
        r == Fault(RoomExists) && state.roomIdToGameState == old(state.roomIdToGameState)
      ensures msg.roomId !in old(state.roomIdToGameState) ==>
        && msg.roomId in state.roomIdToGameState
        && state.roomIdToGameState == old(state.roomIdToGameState)[msg.roomId := state.roomIdToGameState[msg.roomId]]
        && (var g := state.roomIdToGameState[msg.roomId];
            && fresh(g) && fresh(g.deck) && fresh(g.Players())
            && state.Repr == old(state.Repr) + g.Repr())
        && state.IsNewRoom(msg.roomId, msg.userId)
        && (1 <= |msg.userId| <= 14 ==> r.Ok?)
        && (|msg.userId| == 15 ==> r.Ok? || r == Fault(NeverTerminates))
        && (|msg.userId| >= 16 ==> r == Fault(EmptyPile))
        && (|msg.userId| == 0 ==> r == Fault(EmptyRange))
      ensures r.Ok? ==>
        && state.Opened(msg.roomId, msg.userId, opening)
        && IsOrderOf(msgOrder, opening.handcards.Keys)
        && |r.value| == |msgOrder|
        && forall k :: 0 <= k < |msgOrder| ==>
             r.value[k] == NotifyMsgArgs(msg.roomId, msgOrder[k],
               GameStartMsg(opening.handcards[msgOrder[k]], opening.flippedCard, opening.firstPlayer))
    {
      var started := state.NewGame(msg.roomId, msg.userId, msg.custom);
      if started.Fault? {
        return Fault(started.fault), Opening(map[], Card(Red, Zero), 0), [];
      }
      var o := started.value;
      opening := o;
      OrderExists(o.handcards.Keys);
      var keys :| IsOrderOf(keys, o.handcards.Keys);
      var msgs: Msgs := [];
      for k := 0 to |keys|
        invariant |msgs| == k
        invariant forall j :: 0 <= j < k ==>
          msgs[j] == NotifyMsgArgs(msg.roomId, keys[j], GameStartMsg(o.handcards[keys[j]], o.flippedCard, o.firstPlayer))
      {
        var u := keys[k];
        msgs := msgs + [NotifyMsgArgs(msg.roomId, u, GameStartMsg(o.handcards[u], o.flippedCard, o.firstPlayer))];
      }
      return Ok(msgs), opening, keys;
    }

    /** transition_user_operation_args: the room and user become the current ones, and
        the operation is performed for them. */
    method TransitionUserOperationArgs(msg: UserOperationArgs<UserOperation>) returns (r: Result<Msgs>)
      requires Valid()
      modifies state`curRoomId, state`curUserId, state`roomIdToGameState, Footprint(msg.roomId, msg.userId)
      ensures Valid()
      ensures state.curRoomId == msg.roomId && state.curUserId == msg.userId
      ensures r.Ok? <==> old(CanApply(msg.custom, msg.roomId, msg.userId))
      ensures msg.custom == NoOperation ==> r == Fault(MissingField)
      ensures (msg.custom.Draw? || msg.custom.Play?) && !old(Seated(msg.roomId, msg.userId)) ==> r.Fault?
      ensures msg.custom.Play? && !old(Seated(msg.roomId, msg.userId)) ==> r == Fault(MissingKey)
      ensures r.Fault? || msg.custom.SkipTurn? || msg.custom.Unrecognised? ==>
        unchanged(Footprint(msg.roomId, msg.userId)) && state.roomIdToGameState == old(state.roomIdToGameState)
      ensures r.Ok? ==> Outcome(msg.custom, msg.roomId, msg.userId, old(state.roomIdToGameState), old(TableAt(msg.roomId)), r.value)
    {
      FootprintInRepr(msg.roomId, msg.userId);
      ghost var can := CanApply(msg.custom, msg.roomId, msg.userId);
      ghost var table := TableAt(msg.roomId);
      state.curRoomId := msg.roomId;
      state.curUserId := msg.userId;
      assert CanApply(msg.custom, msg.roomId, msg.userId) == can && TableAt(msg.roomId) == table;
      r := TransitionUserOperation(msg.custom);
    }

    /** transition_user_operation: an unset operation panics, one the dispatch does not
        know sends nothing, and the others go to their transition. */
    method TransitionUserOperation(op: UserOperation) returns (r: Result<Msgs>)
      requires Valid()
      modifies state`roomIdToGameState, Footprint(state.curRoomId, state.curUserId)
      ensures Valid()
      ensures r.Ok? <==> old(CanApply(op, state.curRoomId, state.curUserId))
      ensures op == NoOperation ==> r == Fault(MissingField)
      ensures (op.Draw? || op.Play?) && !old(Seated(state.curRoomId, state.curUserId)) ==> r.Fault?
      ensures op.Play? && !old(Seated(state.curRoomId, state.curUserId)) ==> r == Fault(MissingKey)
      ensures r.Fault? || op.SkipTurn? || op.Unrecognised? ==>
        unchanged(Footprint(state.curRoomId, state.curUserId)) && state.roomIdToGameState == old(state.roomIdToGameState)
      ensures r.Ok? ==> Outcome(op, state.curRoomId, state.curUserId, old(state.roomIdToGameState), old(TableAt(state.curRoomId)), r.value)
    {
      match op
      case NoOperation =>
        r := Fault(MissingField);
      case Unrecognised =>
        r := Ok([]);
      case Draw(number) =>
        r := TransitionDraw(number);
      case SkipTurn =>
        var msgs := TransitionSkip();
        r := Ok(msgs);
      case Play(card, nextColor) =>
        r := TransitionPlay(card, nextColor);
    }

    /** transition_draw for the current user in the current room: `number` cards leave
        the deck for the user, the room learns how many, and the user alone which. */
    method TransitionDraw(number: int) returns (r: Result<Msgs>)
      requires Valid()
      modifies Footprint(state.curRoomId, state.curUserId)
      ensures Valid() && state.roomIdToGameState == old(state.roomIdToGameState)
      ensures r.Ok? <==> old(CanApply(Draw(number), state.curRoomId, state.curUserId))
      ensures state.curRoomId !in state.roomIdToGameState ==> r == Fault(MissingKey)
      ensures state.curRoomId in state.roomIdToGameState && number < 0 ==> r == Fault(CapacityOverflow)
      ensures state.curRoomId in state.roomIdToGameState ==>
        (number > |old(state.roomIdToGameState[state.curRoomId].deck.Contents())| ==> r == Fault(EmptyPile))
      ensures r.Fault? ==> unchanged(Footprint(state.curRoomId, state.curUserId))
      ensures r.Ok? ==> Outcome(Draw(number), state.curRoomId, state.curUserId, old(state.roomIdToGameState), old(TableAt(state.curRoomId)), r.value)
    {
      var roomId, userId := state.curRoomId, state.curUserId;
      if roomId !in state.roomIdToGameState {
        return Fault(MissingKey);
      }
      var game := state.roomIdToGameState[roomId];
      if number < 0 {
        return Fault(CapacityOverflow);
      }
      if number > |game.deck.pile| + |game.deck.discardPile| {
        return Fault(EmptyPile);
      }
      if userId !in game.userIdToPlayerState {
        return Fault(MissingKey);
      }
      FootprintInRepr(roomId, userId);
      var cards := DrawInGame(game, userId, number);
      r := Ok([NotifyMsgArgs(roomId, 0, DrawMsg(number)), NotifyMsgArgs(roomId, userId, DrawRsp(cards))]);
    }

    /** transition_skip: the room hears that the turn was skipped; nothing is looked up
        and nothing changes. */
    method TransitionSkip() returns (msgs: Msgs)
      ensures msgs == [NotifyMsgArgs(state.curRoomId, 0, SkipMsg)]
    {
      msgs := [NotifyMsgArgs(state.curRoomId, 0, SkipMsg)];
    }

    /** transition_play for the current user in the current room: the card goes on the
        discard pile and the room hears of it; the hand of the card's player is not
        checked. When the user's count reaches zero the game closes and the room goes. */
    method TransitionPlay(card: Card, nextColor: int) returns (r: Result<Msgs>)
      requires Valid()
      modifies state`roomIdToGameState, Footprint(state.curRoomId, state.curUserId)
      ensures Valid()
      ensures r.Ok? <==> old(Seated(state.curRoomId, state.curUserId))
      ensures r.Fault? ==>
        && r.fault == MissingKey && unchanged(Footprint(state.curRoomId, state.curUserId))
        && state.roomIdToGameState == old(state.roomIdToGameState)
      ensures r.Ok? ==> Outcome(Play(card, nextColor), state.curRoomId, state.curUserId, old(state.roomIdToGameState), old(TableAt(state.curRoomId)), r.value)
    {
      var roomId, userId := state.curRoomId, state.curUserId;
      if roomId !in state.roomIdToGameState || userId !in state.roomIdToGameState[roomId].userIdToPlayerState {
        return Fault(MissingKey);
      }
      var game := state.roomIdToGameState[roomId];
      var player := game.userIdToPlayerState[userId];
      FootprintInRepr(roomId, userId);
      PlayInGame(game, userId, card);
      var msgs: Msgs := [NotifyMsgArgs(roomId, 0, PlayMsg(card, nextColor))];
      if player.handcardsNum == 0 {
        msgs := msgs + [CloseGameArgs(roomId)];
        state.RemoveRoom(roomId);
      }
      r := Ok(msgs);
    }
  }
}
