/** The Splendor engine's mutable state: the room registry, each room's game, its
    board (three tiers of cards, the token pool, the nobles) and its players. */
module SplendorState {
  import opened Provider
  import opened SplendorPb
  import opened SplendorSetup
  import opened SplendorRules

  /** The board's token pool when a game starts: seven of each gem and five Gold. */
  const INITIAL_BOARD_RESOURCES: ResourceMap := [
    ResourceEntry(AGATE, 7), ResourceEntry(EMERALD, 7), ResourceEntry(DIAMOND, 7),
    ResourceEntry(RUBY, 7), ResourceEntry(SAPPHIRE, 7), ResourceEntry(GOLD, 5)]

  /** A board pool: one entry per resource type including Gold, at the index of its
      type, none negative. */
  ghost predicate IsBoardPool(m: ResourceMap)
  {
    && |m| == GOLD + 1
    && forall t :: 0 <= t < |m| ==> m[t].resourceType == t && m[t].number >= 0
  }

  /** DevCardsLevelState::take on values: the new deck, the new face-up window and the
      card handed out. With cards left in the deck, the deck's last card is popped, put
      face up at `index` and handed out, so it stays face up and the card that was at
      `index` leaves the tier; with an empty deck the card at `index` is removed and
      handed out. */
  function TakeFrom(deck: seq<Development>, window: seq<Development>, index: int)
    : (r: (seq<Development>, seq<Development>, Development))
    requires 0 <= index < |window|
    ensures |r.0| + |r.1| + 1 == |deck| + |window|
    ensures deck != [] ==>
      && r.0 == deck[..|deck| - 1] && r.2 == deck[|deck| - 1]
      && |r.1| == |window| && r.1[index] == r.2
      && (forall k :: 0 <= k < |window| && k != index ==> r.1[k] == window[k])
      && multiset(r.0) + multiset(r.1) + multiset{window[index]} == multiset(deck) + multiset(window)
    ensures deck == [] ==>
      && r.0 == [] && r.2 == window[index]
      && r.1 == window[..index] + window[index + 1..]
      && multiset(r.1) + multiset{r.2} == multiset(window)
  {
    if deck == [] then
      assert window == window[..index] + [window[index]] + window[index + 1..];
      ([], window[..index] + window[index + 1..], window[index])
    else
      var top := deck[|deck| - 1];
      assert deck == deck[..|deck| - 1] + [top];
      (deck[..|deck| - 1], window[index := top], top)
  }

  /** One tier of development cards: a hidden deck, used as a stack, and the face-up cards. */
  class DevCardsLevelState {
    var deck: seq<Development>
    var cardsOnBoard: seq<Development>

    ghost predicate Valid()
      reads this
    {
      AllWellFormed(deck) && AllWellFormed(cardsOnBoard)
    }

    constructor (deck: seq<Development>, cardsOnBoard: seq<Development>)
      ensures this.deck == deck && this.cardsOnBoard == cardsOnBoard
    {
      this.deck := deck;
      this.cardsOnBoard := cardsOnBoard;
    }

    /** The body new_level1/2/3 share: build `total` cards and turn the last four face up. */
    static method FromTemplates(templates: seq<seq<int>>, total: nat) returns (r: Result<DevCardsLevelState>)
      requires total >= 4
      requires forall i, j :: 0 <= i < |templates| && 0 <= j < |templates[i]| ==> templates[i][j] >= 0
      ensures r.Ok? ==> fresh(r.value) && r.value.Valid()
      ensures r.Ok? ==> |r.value.deck| == total - 4 && |r.value.cardsOnBoard| == 4
      ensures OnlyPairs(templates) && |templates| > 0 ==> r.Ok?
      ensures !HasPair(templates) ==> r.Fault?
    {
      var devs := GetRandDevs(templates, total);
      if devs.Fault? {
        return Fault(devs.fault);
      }
      var cards := devs.value;
      forall k | 0 <= k < |cards|
        ensures WellFormedDev(cards[k])
      {
        PairCardWellFormed(cards[k], templates);
      }
      var cut := |cards| - 4;
      var level := new DevCardsLevelState(cards[..cut], cards[cut..]);
      return Ok(level);
    }

    /** new_level1: 40 cards, four of them face up. No level-one template has two numbers
        (LevelOneHasNoPair), so by GetRandDevs it always panics and never returns a tier. */
    static method NewLevel1() returns (r: Result<DevCardsLevelState>)
      ensures r.Fault?
    {
      r := FromTemplates(LEVEL1_TEMPLATES, 40);
      LevelOneHasNoPair();
    }

    /** new_level2: 30 cards, four of them face up. */
    static method NewLevel2() returns (r: Result<DevCardsLevelState>)
      ensures r.Ok? ==> fresh(r.value) && r.value.Valid()
      ensures r.Ok? ==> |r.value.deck| + |r.value.cardsOnBoard| == 30 && |r.value.cardsOnBoard| == 4
    {
      r := FromTemplates(LEVEL2_TEMPLATES, 30);
    }

    /** new_level3: 20 cards, four of them face up. */
    static method NewLevel3() returns (r: Result<DevCardsLevelState>)
      ensures r.Ok? ==> fresh(r.value) && r.value.Valid()
      ensures r.Ok? ==> |r.value.deck| + |r.value.cardsOnBoard| == 20 && |r.value.cardsOnBoard| == 4
    {
      r := FromTemplates(LEVEL3_TEMPLATES, 20);
    }

    /** What everybody may see of the tier. */
    function GetPubState(): DevelopmentLevelState
      reads this
    {
      DevelopmentLevelState(|deck|, cardsOnBoard)
    }

    /** take(index): hand out a face-up card, refilling its slot from the deck. */
    method Take(index: int) returns (card: Development)
      requires 0 <= index < |cardsOnBoard|  // remove / index assignment panics otherwise
      modifies this
      ensures (deck, cardsOnBoard, card) == TakeFrom(old(deck), old(cardsOnBoard), index)
    {
      if deck == [] {
        card := cardsOnBoard[index];
        cardsOnBoard := cardsOnBoard[..index] + cardsOnBoard[index + 1..];
      } else {
        card := deck[|deck| - 1];
        deck := deck[..|deck| - 1];
        cardsOnBoard := cardsOnBoard[index := card];
      }
    }
  }

  /** The public view of a tier shows the face-up cards and only the size of the deck. */
  lemma TierViewHidesDeck(a: DevCardsLevelState, b: DevCardsLevelState)
    requires a.cardsOnBoard == b.cardsOnBoard && |a.deck| == |b.deck|
    ensures a.GetPubState() == b.GetPubState()
  {
  }

  /** Taking from a tier keeps every card in it well formed. */
  lemma TakeFromKeepsWellFormed(deck: seq<Development>, window: seq<Development>, index: int)
    requires 0 <= index < |window| && AllWellFormed(deck) && AllWellFormed(window)
    ensures var r := TakeFrom(deck, window, index);
      AllWellFormed(r.0) && AllWellFormed(r.1) && WellFormedDev(r.2)
  {
    var r := TakeFrom(deck, window, index);
    if deck == [] {
      forall k | 0 <= k < |r.1|
        ensures WellFormedDev(r.1[k])
      {
        if k >= index {
          assert r.1[k] == window[k + 1];
        }
      }
    }
  }

  class BoardState {
    const devCards: seq<DevCardsLevelState>
    var resourcesOnBoard: ResourceMap
    var noblesOnBoard: seq<Noble>

    /** The board and its three tiers. */
    ghost function Repr(): set<object>
    {
      {this} + set i | 0 <= i < |devCards| :: devCards[i] as object
    }

    ghost predicate Valid()
      reads Repr()
    {
      && |devCards| == 3
      && devCards[0] != devCards[1] && devCards[0] != devCards[2] && devCards[1] != devCards[2]
      && (forall i :: 0 <= i < 3 ==> devCards[i].Valid())
      && IsBoardPool(resourcesOnBoard)
      && AllWellFormedNobles(noblesOnBoard)
    }

    /** The board literal of BoardState::new, given its tiers and nobles. */
    constructor (levels: seq<DevCardsLevelState>, nobles: seq<Noble>)
      requires |levels| == 3 && levels[0] != levels[1] && levels[0] != levels[2] && levels[1] != levels[2]
      requires forall i :: 0 <= i < 3 ==> levels[i].Valid()
      requires AllWellFormedNobles(nobles)
      ensures devCards == levels && resourcesOnBoard == INITIAL_BOARD_RESOURCES && noblesOnBoard == nobles
      ensures Valid()
    {
      devCards := levels;
      resourcesOnBoard := INITIAL_BOARD_RESOURCES;
      noblesOnBoard := nobles;
    }

    /** BoardState::new: three fresh tiers, the initial pool and five random nobles. The
        first thing it builds is tier one, and new_level1 always panics (NewLevel1), so it
        panics there: tiers two and three and the nobles are never built. NewLevel2,
        NewLevel3 and RandNobles model those calls on their own. */
    static method New() returns (r: Result<BoardState>)
      ensures r.Fault?
    {
      var level1 := DevCardsLevelState.NewLevel1();
      return Fault(level1.fault);
    }

    /** The nobles rand_nobles can deal at position i: three gems wanted three times for
        the first three, two gems wanted four times for the last two; distinct gems
        below Sapphire; three points. */
    static ghost predicate IsDealtNoble(n: Noble, i: int)
    {
      && |n.capital| == (if i < 3 then 3 else 2)
      && n.points == 3
      && (forall k :: 0 <= k < |n.capital| ==>
            && n.capital[k].number == (if i < 3 then 3 else 4)
            && AGATE <= n.capital[k].resourceType < SAPPHIRE)
      && (forall k, l :: 0 <= k < l < |n.capital| ==> n.capital[k].resourceType != n.capital[l].resourceType)
    }

    /** rand_nobles: five pairwise distinct nobles. A draw equal to a noble already dealt
        is retried; the retried draws change nothing, so each step picks the draw that
        ends the retry loop: one that fails or one that is new. The draw of three gems
        yields a single gem (DrawMatchesOnlyPairs), so the first step always fails. */
    static method RandNobles() returns (r: Result<seq<Noble>>)
      ensures r.Ok? ==> |r.value| == 5
      ensures r.Ok? ==> forall i :: 0 <= i < 5 ==> IsDealtNoble(r.value[i], i)
      ensures r.Ok? ==> forall i, j :: 0 <= i < j < 5 ==> r.value[i] != r.value[j]
      ensures r.Ok? ==> AllWellFormedNobles(r.value)
    {
      var nobles: seq<Noble> := [];
      for i := 0 to 5
        invariant |nobles| == i
        invariant forall k :: 0 <= k < i ==> IsDealtNoble(nobles[k], k)
        invariant forall k, l :: 0 <= k < l < i ==> nobles[k] != nobles[l]
      {
        var typeNum := if i < 3 then 3 else 2;
        var numbers := if i < 3 then [3, 3, 3] else [4, 4];
        EndingDrawExists(nobles, i, numbers);
        var shuffled :| && IsShuffledRange(shuffled, AGATE, SAPPHIRE)
                        && var rands := GetMultiRandNums(typeNum, AGATE, SAPPHIRE, shuffled);
                           |rands| != |numbers| || GetARandNoble(rands, numbers) !in nobles;
        var rands := GetMultiRandNums(typeNum, AGATE, SAPPHIRE, shuffled);
        if |rands| != |numbers| {
          return Fault(AssertionFailed);
        }
        var noble := GetARandNoble(rands, numbers);
        nobles := nobles + [noble];
      }
      return Ok(nobles);
    }

    /** Some draw ends the retry loop at step i: for the first three steps any draw
        fails; for the last two, the draws of gems {2, 3} and {0, 1} differ, and at most
        one noble dealt so far wants two gems. */
    static lemma EndingDrawExists(nobles: seq<Noble>, i: int, numbers: seq<int>)
      requires 0 <= i < 5 && |nobles| == i
      requires numbers == if i < 3 then [3, 3, 3] else [4, 4]
      requires forall k :: 0 <= k < i ==> IsDealtNoble(nobles[k], k)
      ensures exists shuffled :: && IsShuffledRange(shuffled, AGATE, SAPPHIRE)
                               && var rands := GetMultiRandNums(if i < 3 then 3 else 2, AGATE, SAPPHIRE, shuffled);
                                  |rands| != |numbers| || GetARandNoble(rands, numbers) !in nobles
    {
      var typeNum := if i < 3 then 3 else 2;
      var s1 := [0, 1, 2, 3];
      var s2 := [2, 3, 0, 1];
      assert IsShuffledRange(s1, AGATE, SAPPHIRE) && IsShuffledRange(s2, AGATE, SAPPHIRE);
      if i >= 3 {
        var n1 := GetARandNoble(GetMultiRandNums(typeNum, AGATE, SAPPHIRE, s1), numbers);
        var n2 := GetARandNoble(GetMultiRandNums(typeNum, AGATE, SAPPHIRE, s2), numbers);
        assert n1.capital[0].resourceType == 2 && n2.capital[0].resourceType == 0;
        if n1 in nobles && n2 in nobles {
          assert false;  // both would be the one two-gem noble dealt at step 3
        }
      }
    }

    /** take_resource(t): one token of type t leaves the pool. */
    method TakeResource(t: int)
      requires 0 <= t < |resourcesOnBoard|            // indexing panics otherwise
      requires resourcesOnBoard[t].resourceType == t  // assert_eq! on the entry's type
      requires resourcesOnBoard[t].number >= 1        // assert! that the count stays >= 0
      modifies this
      ensures resourcesOnBoard == old(resourcesOnBoard)[t := ResourceEntry(t, old(resourcesOnBoard[t].number) - 1)]
      ensures noblesOnBoard == old(noblesOnBoard)
    {
      resourcesOnBoard := resourcesOnBoard[t := ResourceEntry(t, resourcesOnBoard[t].number - 1)];
    }

    /** return_resource(m): every entry of m goes back to the pool entry of its type. */
    method ReturnResource(m: ResourceMap)
      requires forall k :: 0 <= k < |m| ==> 0 <= m[k].resourceType < |resourcesOnBoard|  // indexing
      modifies this
      ensures |resourcesOnBoard| == |old(resourcesOnBoard)|
      ensures forall t :: 0 <= t < |resourcesOnBoard| ==>
        resourcesOnBoard[t] == old(resourcesOnBoard[t]).(number := old(resourcesOnBoard[t].number) + Total(m, t))
      ensures noblesOnBoard == old(noblesOnBoard)
    {
      var i := 0;
      while i < |m|
        invariant 0 <= i <= |m|
        invariant |resourcesOnBoard| == |old(resourcesOnBoard)|
        invariant forall t :: 0 <= t < |resourcesOnBoard| ==>
          resourcesOnBoard[t] == old(resourcesOnBoard[t]).(number := old(resourcesOnBoard[t].number) + Total(m[..i], t))
        invariant noblesOnBoard == old(noblesOnBoard)
      {
        var t := m[i].resourceType;
        assert m[..i + 1][..i] == m[..i];
        resourcesOnBoard := resourcesOnBoard[t := resourcesOnBoard[t].(number := resourcesOnBoard[t].number + m[i].number)];
        i := i + 1;
      }
      assert m[..i] == m;
    }
  }

  class PlayerState {
    var devCards: seq<Development>
    var resource: ResourceMap
    var nobles: seq<Noble>
    var reservedCards: seq<Development>
    var points: int

    /** Five token counters (no Gold), well-formed cards and nobles, and points equal
        to what the owned cards and nobles are worth. */
    ghost predicate Valid()
      reads this
    {
      && |resource| == GOLD
      && GemColoured(devCards)
      && AllWellFormed(devCards)
      && AllWellFormed(reservedCards)
      && AllWellFormedNobles(nobles)
      && points == DevPoints(devCards) + NoblePoints(nobles)
    }

    /** PlayerState::new: nothing owned, every counter zero. */
    constructor ()
      ensures devCards == [] && nobles == [] && reservedCards == [] && points == 0
      ensures resource == DefaultResourceMap()
      ensures Valid()
    {
      devCards := [];
      resource := DefaultResourceMap();
      nobles := [];
      reservedCards := [];
      points := 0;
    }

    /** get_pub_state: the production per colour instead of the cards, and the reserved
        cards only as a count. */
    function GetPubState(): (p: PlayerStatePub)
      reads this
      requires GemColoured(devCards)  // indexing panics otherwise
      ensures |p.development| == GOLD
      ensures forall t :: 0 <= t < GOLD ==> p.development[t].number == multiset(Colours(devCards))[t]
      ensures p.reservedNum == |reservedCards|
    {
      PlayerStatePub(Production(devCards), resource, nobles, |reservedCards|, points)
    }

    /** take_resource(t): one more token of type t. */
    method TakeResource(t: int)
      requires 0 <= t < |resource|  // indexing panics otherwise
      modifies this
      ensures resource == old(resource)[t := old(resource[t]).(number := old(resource[t].number) + 1)]
      ensures devCards == old(devCards) && nobles == old(nobles)
      ensures reservedCards == old(reservedCards) && points == old(points)
    {
      resource := resource[t := resource[t].(number := resource[t].number + 1)];
    }

    /** spend_resource(m): every entry of m is subtracted from the counter of its type,
        with no check that the player can afford it. */
    method SpendResource(m: ResourceMap)
      requires forall k :: 0 <= k < |m| ==> 0 <= m[k].resourceType < |resource|  // indexing
      modifies this
      ensures |resource| == |old(resource)|
      ensures forall t :: 0 <= t < |resource| ==>
        resource[t] == old(resource[t]).(number := old(resource[t].number) - Total(m, t))
      ensures devCards == old(devCards) && nobles == old(nobles)
      ensures reservedCards == old(reservedCards) && points == old(points)
    {
      var i := 0;
      while i < |m|
        invariant 0 <= i <= |m|
        invariant |resource| == |old(resource)|
        invariant forall t :: 0 <= t < |resource| ==>
          resource[t] == old(resource[t]).(number := old(resource[t].number) - Total(m[..i], t))
        invariant devCards == old(devCards) && nobles == old(nobles)
        invariant reservedCards == old(reservedCards) && points == old(points)
      {
        var t := m[i].resourceType;
        assert m[..i + 1][..i] == m[..i];
        resource := resource[t := resource[t].(number := resource[t].number - m[i].number)];
        i := i + 1;
      }
      assert m[..i] == m;
    }
  }

  /** The public view of a player does not depend on which cards they reserved. */
  lemma PlayerViewHidesReserved(a: PlayerState, b: PlayerState)
    requires a.devCards == b.devCards && a.resource == b.resource && a.nobles == b.nobles
    requires a.points == b.points && |a.reservedCards| == |b.reservedCards|
    requires GemColoured(a.devCards)
    ensures a.GetPubState() == b.GetPubState()
  {
  }

  class GameState {
    const playerNum: nat
    const gameSettings: StartGameSettings
    const boardState: BoardState
    const userIdToPlayerState: map<int, PlayerState>
    /** The order in which the HashMap of players happens to be iterated. */
    const order: seq<int>

    ghost function Repr(): set<object>
    {
      {this} + boardState.Repr() + set u | u in userIdToPlayerState :: userIdToPlayerState[u] as object
    }

    ghost predicate Valid()
      reads Repr()
    {
      && boardState.Valid()
      && (forall u :: u in userIdToPlayerState ==> userIdToPlayerState[u].Valid())
      && (forall u, v :: u in userIdToPlayerState && v in userIdToPlayerState && u != v ==>
            userIdToPlayerState[u] != userIdToPlayerState[v])
      && IsOrderOf(order, userIdToPlayerState.Keys)
    }

    constructor (playerNum: nat, gameSettings: StartGameSettings, boardState: BoardState,
                 players: map<int, PlayerState>, order: seq<int>)
      ensures this.playerNum == playerNum && this.gameSettings == gameSettings
      ensures this.boardState == boardState && userIdToPlayerState == players && this.order == order
    {
      this.playerNum := playerNum;
      this.gameSettings := gameSettings;
      this.boardState := boardState;
      userIdToPlayerState := players;
      this.order := order;
    }

    /** A player exactly as PlayerState::new leaves it. */
    static ghost predicate IsNewPlayer(p: PlayerState)
      reads p
    {
      && p.devCards == [] && p.nobles == [] && p.reservedCards == [] && p.points == 0
      && p.resource == DefaultResourceMap()
    }

    /** The player map of GameState::new: a new player per listed user id; a repeated
        id keeps the player created last. */
    static method NewPlayers(userIds: seq<UserId>) returns (players: map<int, PlayerState>)
      ensures forall u :: u in players <==> u in userIds
      ensures forall u :: u in players ==> fresh(players[u]) && IsNewPlayer(players[u]) && players[u].Valid()
      ensures forall u, v :: u in players && v in players && u != v ==> players[u] != players[v]
    {
      players := map[];
      for i := 0 to |userIds|
        invariant forall u :: u in players <==> exists j :: 0 <= j < i && userIds[j] == u
        invariant forall u :: u in players ==> fresh(players[u]) && IsNewPlayer(players[u]) && players[u].Valid()
        invariant forall u, v :: u in players && v in players && u != v ==> players[u] != players[v]
      {
        var p := new PlayerState();
        players := players[userIds[i] := p];
      }
    }

    /** GameState::new: the players, then player_num the length of the id list and a new
        board. BoardState::new always panics (BoardState.New), so no game is ever built. */
    static method New(userIds: seq<UserId>, gameSettings: StartGameSettings) returns (r: Result<GameState>)
      ensures r.Fault?
    {
      var players := NewPlayers(userIds);
      var board := BoardState.New();
      return Fault(board.fault);
    }

    /** The public views of the given players, in the given order. */
    function PlayerPubStates(ids: seq<int>): (s: seq<PlayerStatePub>)
      reads Repr()
      requires forall i :: 0 <= i < |ids| ==>
        && ids[i] in userIdToPlayerState && userIdToPlayerState[ids[i]] in Repr()
        && GemColoured(userIdToPlayerState[ids[i]].devCards)
      ensures |s| == |ids|
    {
      if ids == [] then []
      else
        var u := ids[0];
        [userIdToPlayerState[u].GetPubState()] + PlayerPubStates(ids[1..])
    }

    /** Entry i of the views is the view of player ids[i]. */
    lemma {:induction false} PlayerPubStatesAt(ids: seq<int>)
      requires forall i :: 0 <= i < |ids| ==>
        && ids[i] in userIdToPlayerState && userIdToPlayerState[ids[i]] in Repr()
        && GemColoured(userIdToPlayerState[ids[i]].devCards)
      ensures forall i :: 0 <= i < |ids| ==> PlayerPubStates(ids)[i] == userIdToPlayerState[ids[i]].GetPubState()
    {
      if ids != [] {
        PlayerPubStatesAt(ids[1..]);
      }
    }

    /** Every player the iteration order lists is in the map and can be viewed. */
    lemma OrderedPlayersViewable()
      requires Valid()
      ensures forall u :: u in order ==>
        && u in userIdToPlayerState && userIdToPlayerState[u] in Repr()
        && GemColoured(userIdToPlayerState[u].devCards)
    {
      forall u | u in order
        ensures && u in userIdToPlayerState && userIdToPlayerState[u] in Repr()
                && GemColoured(userIdToPlayerState[u].devCards)
      {
        assert userIdToPlayerState[u].Valid();
      }
    }

    /** get_pub_state: the three tier views, the pool, the nobles, and one view per
        player in the map's iteration order, so each player's view appears exactly once. */
    function GetPubState(): GameStatePub
      reads Repr()
      requires Valid()
    {
      OrderedPlayersViewable();
      GameStatePub(
        boardState.devCards[0].GetPubState(),
        boardState.devCards[1].GetPubState(),
        boardState.devCards[2].GetPubState(),
        boardState.resourcesOnBoard,
        boardState.noblesOnBoard,
        PlayerPubStates(order))
    }

    /** The public state shows the pool and the nobles as they are, and one view per
        player, in the map's iteration order, so each player's view appears exactly once. */
    lemma PubStateShowsPlayers()
      requires Valid()
      ensures var s := GetPubState();
        && s.resourcesOnBoard == boardState.resourcesOnBoard && s.noblesOnBoard == boardState.noblesOnBoard
        && |s.playerStates| == |order| == |userIdToPlayerState|
        && (forall i :: 0 <= i < |order| ==> s.playerStates[i] == userIdToPlayerState[order[i]].GetPubState())
    {
      OrderSize(order, userIdToPlayerState.Keys);
      OrderedPlayersViewable();
      assert forall i :: 0 <= i < |order| ==> order[i] in order;
      PlayerPubStatesAt(order);
    }

    /** game_start: a first player picked at random below player_num, and the public
        state. gen_range panics when there are no players. */
    method GameStart() returns (r: Result<GameStart>)
      requires Valid()
      ensures r.Ok? <==> playerNum > 0
      ensures r.Ok? ==> 0 <= r.value.firstPlayer < playerNum && r.value.state == GetPubState()
    {
      if playerNum == 0 {
        return Fault(EmptyRange);
      }
      var first :| 0 <= first < playerNum;
      return Ok(SplendorPb.GameStart(first, GetPubState()));
    }
  }

  class GlobalState {
    var roomIdToGameState: map<int, GameState>
    var curRoomId: int
    var curUserId: int
    /** The registry and every object of every room. */
    ghost var Repr: set<object>

    /** Every room is a valid game and no two rooms share an object. The current room
        and user do not matter. */
    ghost predicate Valid()
      reads this`roomIdToGameState, this`Repr, Repr - {this}
    {
      && this in Repr
      && (forall r :: r in roomIdToGameState ==>
            && roomIdToGameState[r].Repr() <= Repr
            && this !in roomIdToGameState[r].Repr()
            && roomIdToGameState[r].Valid())
      && (forall r, s :: r in roomIdToGameState && s in roomIdToGameState && r != s ==>
            roomIdToGameState[r].Repr() !! roomIdToGameState[s].Repr())
    }

    /** GlobalState::new: no rooms, no current room or user. */
    constructor ()
      ensures roomIdToGameState == map[] && curRoomId == -1 && curUserId == -1
      ensures Valid() && fresh(Repr)
    {
      roomIdToGameState := map[];
      curRoomId := -1;
      curUserId := -1;
      Repr := {this};
    }

    /** Insert a valid game, whose objects are new to the registry, under a free room id. */
    method AddRoom(roomId: int, g: GameState)
      requires Valid() && roomId !in roomIdToGameState
      requires g.Valid() && g.Repr() !! Repr
      modifies this
      ensures Valid() && Repr == old(Repr) + g.Repr()
      ensures roomIdToGameState == old(roomIdToGameState)[roomId := g]
      ensures curRoomId == old(curRoomId) && curUserId == old(curUserId)
    {
      ghost var rooms := roomIdToGameState;
      assert this !in g.Repr();
      roomIdToGameState := roomIdToGameState[roomId := g];
      Repr := Repr + g.Repr();
      forall q | q in roomIdToGameState
        ensures && roomIdToGameState[q].Repr() <= Repr
                && this !in roomIdToGameState[q].Repr()
                && roomIdToGameState[q].Valid()
      {
        if q != roomId {
          assert roomIdToGameState[q] == rooms[q];
        }
      }
      forall q, q' | q in roomIdToGameState && q' in roomIdToGameState && q != q'
        ensures roomIdToGameState[q].Repr() !! roomIdToGameState[q'].Repr()
      {
        if q != roomId && q' != roomId {
          assert roomIdToGameState[q] == rooms[q] && roomIdToGameState[q'] == rooms[q'];
        }
      }
    }

    /** new_game: refuses a room id in use. Otherwise GameState::new runs before the
        insert and always panics (GameState.New), so the registry never changes: no room
        is added and game_start is never reached. */
    method NewGame(roomId: int, userIds: seq<UserId>, gameSettings: StartGameSettings) returns (r: Result<GameStart>)
      ensures roomId in roomIdToGameState ==> r == Fault(RoomExists)
      ensures r.Fault?
    {
      if roomId in roomIdToGameState {
        return Fault(RoomExists);
      }
      var game := GameState.New(userIds, gameSettings);
      return Fault(game.fault);
    }
  }
}
