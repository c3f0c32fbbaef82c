/** The Splendor engine's state machine: how each inbound message changes the room
    registry and which messages go out. A transition that would panic returns a Fault
    and changes no game object. Each user operation is proved to do to the room's
    objects what SplendorMoves says it does to values. */
module SplendorMachine {
  import opened Provider
  import opened SplendorPb
  import opened SplendorSetup
  import opened SplendorRules
  import opened SplendorState
  import opened SplendorMoves

  type Msgs = seq<ProviderMsg<NotifyMsg>>

  /** A player's holdings in a game, read off the board and the player. */
  ghost function HoldingsOf(board: BoardState, player: PlayerState): Holdings
    reads board, player
  {
    Holdings(board.resourcesOnBoard, board.noblesOnBoard, player.devCards, player.resource, player.nobles, player.points)
  }

  /** The cards within a player's reach, read off the board's tiers and the player. */
  function StockOf(board: BoardState, player: PlayerState): (k: Stock)
    reads board.Repr(), player
    requires |board.devCards| == 3
    ensures |k.tiers| == 3 && k.reserved == player.reservedCards
    ensures forall i :: 0 <= i < 3 ==> k.tiers[i] == Tier(board.devCards[i].deck, board.devCards[i].cardsOnBoard)
  {
    Stock([Tier(board.devCards[0].deck, board.devCards[0].cardsOnBoard),
           Tier(board.devCards[1].deck, board.devCards[1].cardsOnBoard),
           Tier(board.devCards[2].deck, board.devCards[2].cardsOnBoard)],
          player.reservedCards)
  }

  /** Counting one more token of a list: only its own type goes up, and by one. */
  lemma CountStep(resources: seq<int>, i: int)
    requires 0 <= i < |resources|
    ensures multiset(resources[..i + 1]) == multiset(resources[..i]) + multiset{resources[i]}
    ensures multiset(resources[..i + 1])[resources[i]] <= multiset(resources)[resources[i]]
  {
    assert resources[..i + 1] == resources[..i] + [resources[i]];
    assert resources == resources[..i + 1] + resources[i + 1..];
  }

  /** The token loop of transition_take: each token leaves the pool and joins the player. */
  method TakeTokens(board: BoardState, player: PlayerState, resources: seq<int>)
    requires IsBoardPool(board.resourcesOnBoard) && |player.resource| == GOLD
    requires forall i :: 0 <= i < |resources| ==> 0 <= resources[i] < GOLD
    requires forall t :: 0 <= t <= GOLD ==> multiset(resources)[t] <= board.resourcesOnBoard[t].number
    modifies board, player
    ensures |board.resourcesOnBoard| == GOLD + 1 && |player.resource| == GOLD
    ensures forall t :: 0 <= t <= GOLD ==>
      board.resourcesOnBoard[t] == ResourceEntry(t, old(board.resourcesOnBoard[t].number) - multiset(resources)[t])
    ensures forall t :: 0 <= t < GOLD ==>
      player.resource[t] == old(player.resource[t]).(number := old(player.resource[t].number) + multiset(resources)[t])
    ensures board.noblesOnBoard == old(board.noblesOnBoard)
    ensures player.devCards == old(player.devCards) && player.nobles == old(player.nobles)
    ensures player.reservedCards == old(player.reservedCards) && player.points == old(player.points)
  {
    for i := 0 to |resources|
      invariant |board.resourcesOnBoard| == GOLD + 1 && |player.resource| == GOLD
      invariant forall t :: 0 <= t <= GOLD ==>
        board.resourcesOnBoard[t] == ResourceEntry(t, old(board.resourcesOnBoard[t].number) - multiset(resources[..i])[t])
      invariant forall t :: 0 <= t < GOLD ==>
        player.resource[t] == old(player.resource[t]).(number := old(player.resource[t].number) + multiset(resources[..i])[t])
      invariant board.noblesOnBoard == old(board.noblesOnBoard)
      invariant player.devCards == old(player.devCards) && player.nobles == old(player.nobles)
      invariant player.reservedCards == old(player.reservedCards) && player.points == old(player.points)
    {
      var t := resources[i];
      CountStep(resources, i);
      board.TakeResource(t);
      player.TakeResource(t);
    }
    assert resources[..|resources|] == resources;
  }

  /** transition_take inside one game: the tokens move from the board to the player and
      the game stays valid. */
  method TakeInGame(game: GameState, userId: int, resources: seq<int>)
    requires game.Valid() && userId in game.userIdToPlayerState
    requires TakeFits(resources, game.boardState.resourcesOnBoard)
    modifies game.boardState, game.userIdToPlayerState[userId]
    ensures game.Valid()
    ensures var b, p := game.boardState, game.userIdToPlayerState[userId];
      && Took(old(HoldingsOf(b, p)), HoldingsOf(b, p), resources)
      && StockOf(b, p) == old(StockOf(b, p))
  {
    var player := game.userIdToPlayerState[userId];
    assert player.Valid();
    TakeFitsCounts(resources, game.boardState.resourcesOnBoard);
    TakeTokens(game.boardState, player, resources);
  }

  /** transition_take within the registry: only the room's board and the player change,
      and every room stays a valid game. */
  method TakeInRoom(s: GlobalState, roomId: int, userId: int, resources: seq<int>)
    requires s.Valid() && roomId in s.roomIdToGameState
    requires userId in s.roomIdToGameState[roomId].userIdToPlayerState
    requires TakeFits(resources, s.roomIdToGameState[roomId].boardState.resourcesOnBoard)
    modifies s.roomIdToGameState[roomId].boardState, s.roomIdToGameState[roomId].userIdToPlayerState[userId]
    ensures s.Valid()
    ensures var g := s.roomIdToGameState[roomId];
      var b, p := g.boardState, g.userIdToPlayerState[userId];
      && Took(old(HoldingsOf(b, p)), HoldingsOf(b, p), resources)
      && StockOf(b, p) == old(StockOf(b, p))
  {
    var game := s.roomIdToGameState[roomId];
    TakeInGame(game, userId, resources);
    forall q | q in s.roomIdToGameState && q != roomId
      ensures s.roomIdToGameState[q].Valid()
    {
      assert s.roomIdToGameState[q].Repr() !! game.Repr();
      assert old(s.roomIdToGameState[q].Valid());
    }
  }

  /** The inner loop of transition_purchase's noble check: a noble visits unless some
      entry of its requirement exceeds the production of that gem. */
  method NobleWillVisit(noble: Noble, production: ResourceMap) returns (willVisit: bool)
    requires WellFormedNoble(noble) && |production| == GOLD
    ensures willVisit == Visits(noble, production)
  {
    willVisit := true;
    for k := 0 to |noble.capital|
      invariant forall l :: 0 <= l < k ==> noble.capital[l].number <= production[noble.capital[l].resourceType].number
    {
      var entry := noble.capital[k];
      if entry.number > production[entry.resourceType].number {
        willVisit := false;
        break;
      }
    }
  }

  /** The noble at position j visits. */
  ghost predicate VisitsAt(nobles: seq<Noble>, j: int, production: ResourceMap)
    requires 0 <= j < |nobles|
  {
    Visits(nobles[j], production)
  }

  /** `visiting` lists, in increasing order, exactly the positions of the nobles that visit. */
  ghost predicate IsVisitOrder(visiting: seq<int>, nobles: seq<Noble>, production: ResourceMap)
  {
    && (forall a, b :: 0 <= a < b < |visiting| ==> visiting[a] < visiting[b])
    && (forall a :: 0 <= a < |visiting| ==> 0 <= visiting[a] < |nobles|)
    && (forall j :: 0 <= j < |nobles| ==> (j in visiting <==> VisitsAt(nobles, j, production)))
  }

  /** The outer loop of the noble check: the positions of the visiting nobles. */
  method NoblesWillVisit(nobles: seq<Noble>, production: ResourceMap) returns (visiting: seq<int>)
    requires AllWellFormedNobles(nobles) && |production| == GOLD
    ensures IsVisitOrder(visiting, nobles, production)
  {
    visiting := [];
    for i := 0 to |nobles|
      invariant forall a, b :: 0 <= a < b < |visiting| ==> visiting[a] < visiting[b]
      invariant forall a :: 0 <= a < |visiting| ==> 0 <= visiting[a] < i
      invariant forall j :: 0 <= j < i ==> (j in visiting <==> VisitsAt(nobles, j, production))
    {
      var willVisit := NobleWillVisit(nobles[i], production);
      if willVisit {
        visiting := visiting + [i];
      }
    }
  }

  /** Where the removal loop stands after removing visiting[k..]: every position below
      the boundary h is untouched, and h is the last removed position (or the end). */
  ghost function Boundary(visiting: seq<int>, nobles: seq<Noble>, k: int): int
    requires 0 <= k <= |visiting|
  {
    if k == |visiting| then |nobles| else visiting[k]
  }

  /** No noble between the k-th visiting position and the boundary visits. */
  lemma GapDoesNotVisit(visiting: seq<int>, nobles: seq<Noble>, production: ResourceMap, k: int, lo: int)
    requires IsVisitOrder(visiting, nobles, production) && 0 <= k <= |visiting|
    requires k > 0 ==> lo == visiting[k - 1] + 1
    requires k == 0 ==> lo == 0
    ensures forall m :: lo <= m < Boundary(visiting, nobles, k) ==> !Visits(nobles[m], production)
  {
    forall m | lo <= m < Boundary(visiting, nobles, k)
      ensures !Visits(nobles[m], production)
    {
      if m in visiting {
        assert false;  // m would sit strictly between two neighbours of visiting
      } else {
        assert !VisitsAt(nobles, m, production);
      }
    }
  }

  /** The board's nobles once every visitor at or past position h has left. */
  ghost function OnBoardFrom(nobles: seq<Noble>, h: int, production: ResourceMap): seq<Noble>
    requires 0 <= h <= |nobles|
  {
    nobles[..h] + Survivors(nobles[h..], production)
  }

  /** The nobles a player has gained once every visitor at or past position h has left
      the board, last position first. */
  ghost function GainedFrom(nobles: seq<Noble>, h: int, production: ResourceMap): seq<Noble>
    requires 0 <= h <= |nobles|
  {
    Reverse(Acquired(nobles[h..], production))
  }

  /** The points of those nobles. */
  ghost function PointsFrom(nobles: seq<Noble>, h: int, production: ResourceMap): int
    requires 0 <= h <= |nobles|
  {
    NoblePoints(Acquired(nobles[h..], production))
  }

  /** Before the removal loop nothing has left the board. */
  lemma RemovalStart(nobles: seq<Noble>, production: ResourceMap)
    ensures OnBoardFrom(nobles, |nobles|, production) == nobles
    ensures GainedFrom(nobles, |nobles|, production) == []
    ensures PointsFrom(nobles, |nobles|, production) == 0
  {
    assert nobles[|nobles|..] == [];
    assert nobles[..|nobles|] == nobles;
  }

  /** One step of the removal loop: removing the noble at j = visiting[k - 1] from the
      board list, and handing it to the player, moves the boundary to j. */
  lemma RemovalStep(visiting: seq<int>, nobles: seq<Noble>, production: ResourceMap, k: int)
    requires IsVisitOrder(visiting, nobles, production) && 0 < k <= |visiting|
    ensures 0 <= visiting[k - 1] < Boundary(visiting, nobles, k) <= |nobles|
    ensures var j, h := visiting[k - 1], Boundary(visiting, nobles, k);
      && j < |OnBoardFrom(nobles, h, production)|
      && OnBoardFrom(nobles, h, production)[j] == nobles[j]
      && OnBoardFrom(nobles, h, production)[..j] + OnBoardFrom(nobles, h, production)[j + 1..]
           == OnBoardFrom(nobles, j, production)
      && GainedFrom(nobles, h, production) + [nobles[j]] == GainedFrom(nobles, j, production)
      && PointsFrom(nobles, h, production) + nobles[j].points == PointsFrom(nobles, j, production)
  {
    var j := visiting[k - 1];
    var h := Boundary(visiting, nobles, k);
    GapDoesNotVisit(visiting, nobles, production, k, j + 1);
    assert VisitsAt(nobles, j, production);
    NobleStep(nobles, j, h, production);
    var onBoard := nobles[..h] + Survivors(nobles[h..], production);
    assert onBoard[..j] == nobles[..j];
    assert onBoard[j + 1..] == nobles[j + 1..h] + Survivors(nobles[h..], production);
    ReverseCons(nobles[j], Acquired(nobles[h..], production));
    NoblePointsAppend([nobles[j]], Acquired(nobles[h..], production));
    assert [nobles[j]][..0] == [];
  }

  /** When the removal loop ends, the board holds exactly the survivors and the player
      has gained exactly the acquired nobles, in reverse order. */
  lemma RemovalDone(visiting: seq<int>, nobles: seq<Noble>, production: ResourceMap)
    requires IsVisitOrder(visiting, nobles, production)
    ensures 0 <= Boundary(visiting, nobles, 0) <= |nobles|
    ensures OnBoardFrom(nobles, Boundary(visiting, nobles, 0), production) == Survivors(nobles, production)
    ensures GainedFrom(nobles, Boundary(visiting, nobles, 0), production) == Reverse(Acquired(nobles, production))
    ensures PointsFrom(nobles, Boundary(visiting, nobles, 0), production) == NoblePoints(Acquired(nobles, production))
  {
    var h := Boundary(visiting, nobles, 0);
    GapDoesNotVisit(visiting, nobles, production, 0, 0);
    NoneVisit(nobles[..h], production);
    assert nobles == nobles[..h] + nobles[h..];
    SurvivorsAppend(nobles[..h], nobles[h..], production);
    AcquiredAppend(nobles[..h], nobles[h..], production);
    assert Acquired(nobles[h..], production) == Acquired(nobles, production);
  }

  /** The removal loop of transition_purchase: the visiting nobles leave the board from
      the last to the first, each joining the player with its points. The board keeps
      the other nobles in order; the player receives the visitors in reverse order. */
  method AwardNobles(board: BoardState, player: PlayerState, visiting: seq<int>, production: ResourceMap)
    requires IsVisitOrder(visiting, board.noblesOnBoard, production)
    modifies board, player
    ensures board.noblesOnBoard == Survivors(old(board.noblesOnBoard), production)
    ensures player.nobles == old(player.nobles) + Reverse(Acquired(old(board.noblesOnBoard), production))
    ensures player.points == old(player.points) + NoblePoints(Acquired(old(board.noblesOnBoard), production))
    ensures board.resourcesOnBoard == old(board.resourcesOnBoard)
    ensures player.devCards == old(player.devCards) && player.resource == old(player.resource)
    ensures player.reservedCards == old(player.reservedCards)
  {
    ghost var nobles := board.noblesOnBoard;
    RemovalStart(nobles, production);
    var k := |visiting|;
    ghost var h := |nobles|;
    while k > 0
      invariant 0 <= k <= |visiting|
      invariant h == Boundary(visiting, nobles, k) && 0 <= h <= |nobles|
      invariant board.noblesOnBoard == OnBoardFrom(nobles, h, production)
      invariant player.nobles == old(player.nobles) + GainedFrom(nobles, h, production)
      invariant player.points == old(player.points) + PointsFrom(nobles, h, production)
      invariant board.resourcesOnBoard == old(board.resourcesOnBoard)
      invariant player.devCards == old(player.devCards) && player.resource == old(player.resource)
      invariant player.reservedCards == old(player.reservedCards)
    {
      RemovalStep(visiting, nobles, production, k);
      var j := visiting[k - 1];
      var noble := board.noblesOnBoard[j];
      board.noblesOnBoard := board.noblesOnBoard[..j] + board.noblesOnBoard[j + 1..];
      player.nobles := player.nobles + [noble];
      player.points := player.points + noble.points;
      k := k - 1;
      h := j;
    }
    RemovalDone(visiting, nobles, production);
  }


  /** Steps 1 and 2 of transition_purchase: the card and its points go to the player,
      and the price goes from the player's counters, with no check that they can pay,
      back to the pool. */
  method PayForCard(board: BoardState, player: PlayerState, card: Development)
    requires |player.resource| == GOLD && IsBoardPool(board.resourcesOnBoard) && WellFormedDev(card)
    modifies board, player
    ensures IsBoardPool(board.resourcesOnBoard) && |player.resource| == GOLD
    ensures player.devCards == old(player.devCards) + [card] && player.points == old(player.points) + card.points
    ensures forall t :: 0 <= t < GOLD ==>
      player.resource[t] == old(player.resource[t]).(number := old(player.resource[t].number) - Total(card.price, t))
    ensures forall t :: 0 <= t <= GOLD ==>
      board.resourcesOnBoard[t] == old(board.resourcesOnBoard[t]).(number := old(board.resourcesOnBoard[t].number) + Total(card.price, t))
    ensures board.resourcesOnBoard[GOLD] == old(board.resourcesOnBoard[GOLD])
    ensures board.noblesOnBoard == old(board.noblesOnBoard)
    ensures player.nobles == old(player.nobles) && player.reservedCards == old(player.reservedCards)
  {
    player.devCards := player.devCards + [card];
    player.points := player.points + card.points;
    player.SpendResource(card.price);
    board.ReturnResource(card.price);
    PriceTotals(card);
  }

  /** Step 3 of transition_purchase: the nobles the player's production satisfies leave
      the board for the player, last position first, with their points. */
  method ReceiveNobles(board: BoardState, player: PlayerState)
    requires GemColoured(player.devCards) && AllWellFormedNobles(board.noblesOnBoard)
    modifies board, player
    ensures player.devCards == old(player.devCards) && player.resource == old(player.resource)
    ensures board.noblesOnBoard == Survivors(old(board.noblesOnBoard), Production(player.devCards))
    ensures player.nobles == old(player.nobles) + Reverse(Acquired(old(board.noblesOnBoard), Production(player.devCards)))
    ensures player.points == old(player.points) + NoblePoints(Acquired(old(board.noblesOnBoard), Production(player.devCards)))
    ensures board.resourcesOnBoard == old(board.resourcesOnBoard)
    ensures player.reservedCards == old(player.reservedCards)
  {
    var production := player.GetPubState().development;
    var visiting := NoblesWillVisit(board.noblesOnBoard, production);
    AwardNobles(board, player, visiting, production);
  }

  /** Steps 1 to 3 of transition_purchase once the card is in hand; the player stays
      valid: their points are still what their cards and nobles are worth. */
  method BuyCard(board: BoardState, player: PlayerState, card: Development)
    requires player.Valid() && IsBoardPool(board.resourcesOnBoard) && AllWellFormedNobles(board.noblesOnBoard)
    requires WellFormedDev(card)
    modifies board, player
    ensures player.Valid() && IsBoardPool(board.resourcesOnBoard) && AllWellFormedNobles(board.noblesOnBoard)
    ensures player.reservedCards == old(player.reservedCards)
    ensures Bought(old(HoldingsOf(board, player)), HoldingsOf(board, player), card)
    ensures board.resourcesOnBoard[GOLD] == old(board.resourcesOnBoard[GOLD])
  {
    ghost var nobles := board.noblesOnBoard;
    ghost var owned := player.nobles;
    PointsAfterPurchase(player.devCards, card, owned, []);
    PayForCard(board, player, card);
    ReceiveNobles(board, player);
    PointsAfterPurchase([], card, owned, Acquired(nobles, Production(player.devCards)));
    NoblesStayWellFormed(nobles, owned, Production(player.devCards));
  }


  /** After DevCardsLevelState::take on the tier at `level`, the board's tiers are
      those TakeFromTier gives. */
  lemma TierTaken(board: BoardState, player: PlayerState, k: Stock, level: int, index: int, tier: DevCardsLevelState)
    requires |board.devCards| == 3 && 0 <= level < 3 && board.devCards[level] == tier
    requires board.devCards[0] != board.devCards[1] && board.devCards[0] != board.devCards[2] && board.devCards[1] != board.devCards[2]
    requires |k.tiers| == 3 && 0 <= index < |k.tiers[level].window|
    requires forall i :: 0 <= i < 3 && i != level ==> k.tiers[i] == Tier(board.devCards[i].deck, board.devCards[i].cardsOnBoard)
    requires var t := TakeFrom(k.tiers[level].deck, k.tiers[level].window, index);
      tier.deck == t.0 && tier.cardsOnBoard == t.1
    ensures StockOf(board, player).tiers == TakeFromTier(k, level, index).0.tiers
  {
  }

  /** Step 1 of transition_purchase: the card leaves its tier, whose slot is refilled
      from the deck when the deck has cards, or leaves the player's reserve. */
  method SelectCard(board: BoardState, player: PlayerState, level: int, index: int) returns (card: Development)
    requires board.Valid() && player.Valid()
    requires PurchaseFits(level, index, StockOf(board, player))
    modifies board.devCards, player
    ensures board.Valid() && player.Valid() && WellFormedDev(card)
    ensures (StockOf(board, player), card) == PickForPurchase(old(StockOf(board, player)), level, index)
    ensures HoldingsOf(board, player) == old(HoldingsOf(board, player))
  {
    if level >= 0 {
      ghost var k := StockOf(board, player);
      var tier := board.devCards[level];
      assert tier.Valid();
      TakeFromKeepsWellFormed(tier.deck, tier.cardsOnBoard, index);
      card := tier.Take(index);
      TierTaken(board, player, k, level, index, tier);
    } else {
      card := player.reservedCards[index];
      player.reservedCards := player.reservedCards[..index] + player.reservedCards[index + 1..];
      assert forall k :: 0 <= k < |player.reservedCards| ==>
        player.reservedCards[k] == old(player.reservedCards)[if k < index then k else k + 1];
    }
  }

  /** Steps 1 to 3 of transition_purchase on the board and the player: the card is
      taken from its tier or the reserve and bought. */
  method PurchaseCard(board: BoardState, player: PlayerState, level: int, index: int) returns (card: Development)
    requires board.Valid() && player.Valid()
    requires PurchaseFits(level, index, StockOf(board, player))
    modifies board.Repr(), player
    ensures board.Valid() && player.Valid()
    ensures (StockOf(board, player), card) == PickForPurchase(old(StockOf(board, player)), level, index)
    ensures Bought(old(HoldingsOf(board, player)), HoldingsOf(board, player), card)
  {
    card := SelectCard(board, player, level, index);
    ghost var k := StockOf(board, player);
    BuyCard(board, player, card);
    assert StockOf(board, player) == k;
  }

  /** transition_purchase inside one game: the player takes the card and buys it, and
      the game stays valid. */
  method PurchaseInGame(game: GameState, userId: int, level: int, index: int) returns (card: Development)
    requires game.Valid() && userId in game.userIdToPlayerState
    requires PurchaseFits(level, index, StockOf(game.boardState, game.userIdToPlayerState[userId]))
    modifies game.boardState.Repr(), game.userIdToPlayerState[userId]
    ensures game.Valid()
    ensures var b, p := game.boardState, game.userIdToPlayerState[userId];
      && (StockOf(b, p), card) == PickForPurchase(old(StockOf(b, p)), level, index)
      && Bought(old(HoldingsOf(b, p)), HoldingsOf(b, p), card)
  {
    var board := game.boardState;
    var player := game.userIdToPlayerState[userId];
    assert player.Valid() && board.Valid();
    card := PurchaseCard(board, player, level, index);
  }

  /** transition_purchase within the registry: only the room's board, its tiers and the
      player change, and every room stays a valid game. */
  method PurchaseInRoom(s: GlobalState, roomId: int, userId: int, level: int, index: int) returns (card: Development)
    requires s.Valid() && roomId in s.roomIdToGameState
    requires userId in s.roomIdToGameState[roomId].userIdToPlayerState
    requires var g := s.roomIdToGameState[roomId];
      PurchaseFits(level, index, StockOf(g.boardState, g.userIdToPlayerState[userId]))
    modifies s.roomIdToGameState[roomId].boardState.Repr(), s.roomIdToGameState[roomId].userIdToPlayerState[userId]
    ensures s.Valid()
    ensures var g := s.roomIdToGameState[roomId];
      var b, p := g.boardState, g.userIdToPlayerState[userId];
      && (StockOf(b, p), card) == PickForPurchase(old(StockOf(b, p)), level, index)
      && Bought(old(HoldingsOf(b, p)), HoldingsOf(b, p), card)
  {
    var game := s.roomIdToGameState[roomId];
    card := PurchaseInGame(game, userId, level, index);
    forall q | q in s.roomIdToGameState && q != roomId
      ensures s.roomIdToGameState[q].Valid()
    {
      assert s.roomIdToGameState[q].Repr() !! game.Repr();
      assert old(s.roomIdToGameState[q].Valid());
    }
  }

  /** After the top card of the deck at `level` is popped, the board's tiers are those
      a Reserve from that deck gives. */
  lemma TierPopped(board: BoardState, player: PlayerState, k: Stock, level: int, tier: DevCardsLevelState)
    requires |board.devCards| == 3 && 0 <= level < 3 && board.devCards[level] == tier
    requires board.devCards[0] != board.devCards[1] && board.devCards[0] != board.devCards[2] && board.devCards[1] != board.devCards[2]
    requires |k.tiers| == 3 && k.tiers[level].deck != []
    requires forall i :: 0 <= i < 3 && i != level ==> k.tiers[i] == Tier(board.devCards[i].deck, board.devCards[i].cardsOnBoard)
    requires var t := k.tiers[level];
      tier.deck == t.deck[..|t.deck| - 1] && tier.cardsOnBoard == t.window
    ensures StockOf(board, player).tiers == PickForReserve(k, level, -1).0.tiers
  {
  }

  /** Step 1 of transition_reserve: the card leaves its tier, whose slot is refilled
      from the deck when the deck has cards, or is popped from the tier's deck, and
      joins the player's reserve. */
  method ReserveCard(board: BoardState, player: PlayerState, level: int, index: int) returns (card: Development)
    requires board.Valid() && player.Valid()
    requires ReserveFits(level, index, StockOf(board, player))
    modifies board.devCards, player
    ensures board.Valid() && player.Valid()
    ensures (StockOf(board, player), card) == PickForReserve(old(StockOf(board, player)), level, index)
    ensures HoldingsOf(board, player) == old(HoldingsOf(board, player))
  {
    card := DrawForReserve(board, player, level, index);
    player.reservedCards := player.reservedCards + [card];
  }

  /** The tier's part of step 1 of transition_reserve: the card leaves the tier at
      `level`, from its face-up cards or from the top of its deck. */
  method DrawForReserve(board: BoardState, player: PlayerState, level: int, index: int) returns (card: Development)
    requires board.Valid()
    requires ReserveFits(level, index, StockOf(board, player))
    modifies board.devCards
    ensures board.Valid() && WellFormedDev(card)
    ensures StockOf(board, player).tiers == PickForReserve(old(StockOf(board, player)), level, index).0.tiers
    ensures card == PickForReserve(old(StockOf(board, player)), level, index).1
  {
    ghost var k := StockOf(board, player);
    var tier := board.devCards[level];
    assert tier.Valid();
    if index >= 0 {
      TakeFromKeepsWellFormed(tier.deck, tier.cardsOnBoard, index);
      card := tier.Take(index);
      TierTaken(board, player, k, level, index, tier);
    } else {
      card := tier.deck[|tier.deck| - 1];
      tier.deck := tier.deck[..|tier.deck| - 1];
      TierPopped(board, player, k, level, tier);
    }
  }

  /** transition_reserve inside one game when the pool holds no Gold, so that no Gold
      is handed out: the card joins the player's reserve and the game stays valid. */
  method ReserveInGame(game: GameState, userId: int, level: int, index: int) returns (card: Development)
    requires game.Valid() && userId in game.userIdToPlayerState
    requires ReserveFits(level, index, StockOf(game.boardState, game.userIdToPlayerState[userId]))
    modifies game.boardState.devCards, game.userIdToPlayerState[userId]
    ensures game.Valid()
    ensures var b, p := game.boardState, game.userIdToPlayerState[userId];
      && (StockOf(b, p), card) == PickForReserve(old(StockOf(b, p)), level, index)
      && HoldingsOf(b, p) == old(HoldingsOf(b, p))
  {
    var board := game.boardState;
    var player := game.userIdToPlayerState[userId];
    assert player.Valid() && board.Valid();
    card := ReserveCard(board, player, level, index);
    forall u | u in game.userIdToPlayerState && u != userId
      ensures game.userIdToPlayerState[u].Valid()
    {
      assert old(game.userIdToPlayerState[u].Valid());
    }
  }

  /** transition_reserve within the registry: only the room's tiers and the player
      change, and every room stays a valid game. */
  method ReserveInRoom(s: GlobalState, roomId: int, userId: int, level: int, index: int) returns (card: Development)
    requires s.Valid() && roomId in s.roomIdToGameState
    requires userId in s.roomIdToGameState[roomId].userIdToPlayerState
    requires var g := s.roomIdToGameState[roomId];
      ReserveFits(level, index, StockOf(g.boardState, g.userIdToPlayerState[userId]))
    modifies s.roomIdToGameState[roomId].boardState.devCards, s.roomIdToGameState[roomId].userIdToPlayerState[userId]
    ensures s.Valid()
    ensures var g := s.roomIdToGameState[roomId];
      var b, p := g.boardState, g.userIdToPlayerState[userId];
      && (StockOf(b, p), card) == PickForReserve(old(StockOf(b, p)), level, index)
      && HoldingsOf(b, p) == old(HoldingsOf(b, p))
  {
    var game := s.roomIdToGameState[roomId];
    card := ReserveInGame(game, userId, level, index);
    forall q | q in s.roomIdToGameState && q != roomId
      ensures s.roomIdToGameState[q].Valid()
    {
      assert s.roomIdToGameState[q].Repr() !! game.Repr();
      assert old(s.roomIdToGameState[q].Valid());
    }
  }

  /** The messages a user operation that went through sends before the echo of the
      operation: for a reservation from the top of a deck, the card to the reserving
      user alone; then the new public state of the game to the whole room. */
  function Notices(op: UserOperation, roomId: int, userId: int, k: Stock, pub: GameStatePub): Msgs
    requires op.Reserve? ==> ReserveFits(op.developmentLevel, op.index, k)
  {
    var broadcast := NotifyMsgArgs(roomId, 0, State(pub));
    if op.Reserve? && op.index < 0 then
      [NotifyMsgArgs(roomId, userId, ReserveRsp(PickForReserve(k, op.developmentLevel, op.index).1)), broadcast]
    else [broadcast]
  }

  /** An operation that was allowed on the holdings `h` and the stock `k` went through:
      it left the holdings `h'` and the stock `k'` that SplendorMoves.Applied says, and
      sent `msgs`, its notices with the new public state `pub` of the game. */
  ghost predicate Performed(op: UserOperation, roomId: int, userId: int, h: Holdings, k: Stock,
                            h': Holdings, k': Stock, pub: GameStatePub, msgs: Msgs)
  {
    && Allowed(op, h, k)
    && Applied(op, h, k, h', k')
    && msgs == Notices(op, roomId, userId, k, pub)
  }

  /** A Take that fitted, moved the tokens and left the stock alone was performed. */
  lemma TakePerformed(resources: seq<int>, roomId: int, userId: int, h: Holdings, k: Stock,
                      h': Holdings, k': Stock, pub: GameStatePub, msgs: Msgs)
    requires TakeFits(resources, h.pool) && Took(h, h', resources) && k' == k
    requires msgs == [NotifyMsgArgs(roomId, 0, State(pub))]
    ensures Performed(Take(resources), roomId, userId, h, k, h', k', pub, msgs)
  {
  }

  /** A Purchase that fitted, took the card PickForPurchase names and bought it was
      performed. */
  lemma PurchasePerformed(level: int, index: int, card: Development, roomId: int, userId: int,
                          h: Holdings, k: Stock, h': Holdings, k': Stock, pub: GameStatePub, msgs: Msgs)
    requires PurchaseFits(level, index, k) && (k', card) == PickForPurchase(k, level, index)
    requires Bought(h, h', card)
    requires msgs == [NotifyMsgArgs(roomId, 0, State(pub))]
    ensures Performed(Purchase(level, index), roomId, userId, h, k, h', k', pub, msgs)
  {
  }

  /** A Reserve that fitted, with no Gold in the pool, that moved the card PickForReserve
      names and told the user about a card from a deck was performed. */
  lemma ReservePerformed(level: int, index: int, card: Development, roomId: int, userId: int,
                         h: Holdings, k: Stock, h': Holdings, k': Stock, pub: GameStatePub, msgs: Msgs)
    requires ReserveFits(level, index, k) && GOLD < |h.pool| && h.pool[GOLD].number <= 0
    requires (k', card) == PickForReserve(k, level, index) && h' == h
    requires msgs == (if index < 0 then [NotifyMsgArgs(roomId, userId, ReserveRsp(card))] else [])
                     + [NotifyMsgArgs(roomId, 0, State(pub))]
    ensures Performed(Reserve(level, index), roomId, userId, h, k, h', k', pub, msgs)
  {
  }

  class SplendorStateMachine {
    const state: GlobalState

    ghost predicate Valid()
      reads state`roomIdToGameState, state`Repr, state.Repr - {state}
    {
      state.Valid()
    }

    /** SplendorStateMachine::new: an empty registry. */
    constructor ()
      ensures Valid() && fresh(state) && fresh(state.Repr)
      ensures state.roomIdToGameState == map[] && state.curRoomId == -1 && state.curUserId == -1
    {
      state := new GlobalState();
    }

    /** The room exists and the user plays in it: both HashMap lookups succeed. */
    ghost predicate Seated(roomId: int, userId: int)
      reads state`roomIdToGameState
    {
      && roomId in state.roomIdToGameState
      && userId in state.roomIdToGameState[roomId].userIdToPlayerState
    }

    ghost function BoardAt(roomId: int): BoardState
      reads state`roomIdToGameState
      requires roomId in state.roomIdToGameState
    {
      state.roomIdToGameState[roomId].boardState
    }

    ghost function PlayerAt(roomId: int, userId: int): PlayerState
      reads state`roomIdToGameState
      requires Seated(roomId, userId)
    {
      state.roomIdToGameState[roomId].userIdToPlayerState[userId]
    }

    /** The objects a user operation may change: the room's board, its tiers and the
        user's player; nothing when the lookups fail. */
    ghost function Footprint(roomId: int, userId: int): set<object>
      reads state`roomIdToGameState
    {
      if Seated(roomId, userId) then BoardAt(roomId).Repr() + {PlayerAt(roomId, userId)} else {}
    }

    /** Every object a user operation may change is one of the registry's and none is
        the registry itself. */
    lemma FootprintInRepr(roomId: int, userId: int)
      requires Valid()
      ensures Footprint(roomId, userId) <= state.Repr - {state}
      ensures Seated(roomId, userId) ==> state.roomIdToGameState[roomId].Valid()
    {
      if Seated(roomId, userId) {
        var g := state.roomIdToGameState[roomId];
        assert g.userIdToPlayerState[userId] in g.Repr();
      }
    }

    /** The user operation goes through for this user in this room: the room and the
        player exist and nothing in the operation makes the engine panic. */
    ghost predicate CanApply(op: UserOperation, roomId: int, userId: int)
      reads state`roomIdToGameState, Footprint(roomId, userId)
    {
      && Seated(roomId, userId)
      && |BoardAt(roomId).devCards| == 3
      && Allowed(op, HoldingsAt(roomId, userId), StockAt(roomId, userId))
    }

    /** The user's holdings in the room. */
    ghost function HoldingsAt(roomId: int, userId: int): Holdings
      reads state`roomIdToGameState, Footprint(roomId, userId)
      requires Seated(roomId, userId)
    {
      HoldingsOf(BoardAt(roomId), PlayerAt(roomId, userId))
    }

    /** The cards within the user's reach in the room. */
    ghost function StockAt(roomId: int, userId: int): Stock
      reads state`roomIdToGameState, Footprint(roomId, userId)
      requires Seated(roomId, userId) && |BoardAt(roomId).devCards| == 3
    {
      StockOf(BoardAt(roomId), PlayerAt(roomId, userId))
    }

    /** The operation `op` of the user, allowed on the holdings `h` and the stock `k`, was
        performed in the room: it left the user's holdings and stock as SplendorMoves
        says and sent `msgs`, its notices with the room's new public state. */
    ghost predicate Outcome(op: UserOperation, roomId: int, userId: int, h: Holdings, k: Stock, msgs: Msgs)
      reads state`roomIdToGameState, state`Repr, state.Repr - {state}
      requires Valid()
    {
      FootprintInRepr(roomId, userId);
      && Seated(roomId, userId) && |BoardAt(roomId).devCards| == 3
      && Performed(op, roomId, userId, h, k, HoldingsAt(roomId, userId), StockAt(roomId, userId),
                   state.roomIdToGameState[roomId].GetPubState(), msgs)
    }

    /** A user operation answered with `msgs`: the messages of its Outcome followed by
        the echo of the operation to everybody in the room but the user. */
    ghost predicate Replied(op: UserOperation, roomId: int, userId: int, h: Holdings, k: Stock, msgs: Msgs)
      reads state`roomIdToGameState, state`Repr, state.Repr - {state}
      requires Valid()
    {
      && |msgs| >= 1
      && msgs[|msgs| - 1] == NotifyMsgArgs(roomId, -userId, LastUserOperation(op))
      && Outcome(op, roomId, userId, h, k, msgs[..|msgs| - 1])
    }

    /** transition_register_ret: accepted exactly when the registration succeeded; nothing
        is sent. */
    method TransitionRegisterRet(msg: RegisterRet) returns (r: Result<Msgs>)
      ensures r.Ok? <==> msg.err == NoError
      ensures r.Ok? ==> r.value == []
      ensures r.Fault? ==> r.fault == RegisterRejected
    {
      if msg.err != NoError {
        return Fault(RegisterRejected);
      }
      return Ok([]);
    }

    /** transition_query_state_args: nothing changes and nothing is sent. */
    method TransitionQueryStateArgs(msg: QueryStateArgs) returns (r: Msgs)
      ensures r == []
    {
      return [];
    }

    /** transition_start_game_args: a new game in the given room, to be announced to the
        whole room with its first player and public state. new_game always panics
        (GlobalState.NewGame), so it faults and the registry stays as it was. */
    method TransitionStartGameArgs(msg: StartGameArgs<StartGameSettings>) returns (r: Result<Msgs>)
      ensures msg.roomId in state.roomIdToGameState ==> r == Fault(RoomExists)
      ensures r.Fault?
    {
      var start := state.NewGame(msg.roomId, msg.userId, msg.custom);
      return Fault(start.fault);
    }

    /** transition_take for the current user in the current room: the tokens move from
        the pool to the player, and the new public state goes to the whole room. */
    method TransitionTake(resources: seq<int>) returns (r: Result<Msgs>)
      requires Valid()
      modifies Footprint(state.curRoomId, state.curUserId)
      ensures Valid()
      ensures r.Ok? <==> old(CanApply(Take(resources), state.curRoomId, state.curUserId))
      ensures !old(Seated(state.curRoomId, state.curUserId)) ==> r == Fault(MissingKey)
      ensures r.Fault? ==> unchanged(Footprint(state.curRoomId, state.curUserId))
      ensures r.Ok? ==> Outcome(Take(resources), state.curRoomId, state.curUserId, old(HoldingsAt(state.curRoomId, state.curUserId)), old(StockAt(state.curRoomId, state.curUserId)), r.value)
    {
      if state.curRoomId !in state.roomIdToGameState
        || state.curUserId !in state.roomIdToGameState[state.curRoomId].userIdToPlayerState {
        return Fault(MissingKey);
      }
      r := TakeSeated(state.curRoomId, state.curUserId, resources);
    }

    /** The part of transition_take after both lookups have succeeded. */
    method TakeSeated(roomId: int, userId: int, resources: seq<int>) returns (r: Result<Msgs>)
      requires Valid() && Seated(roomId, userId)
      modifies Footprint(roomId, userId)
      ensures Valid()
      ensures r.Ok? <==> old(CanApply(Take(resources), roomId, userId))
      ensures r.Fault? ==> unchanged(Footprint(roomId, userId))
      ensures r.Ok? ==> Outcome(Take(resources), roomId, userId, old(HoldingsAt(roomId, userId)), old(StockAt(roomId, userId)), r.value)
    {
      if !TakeFits(resources, state.roomIdToGameState[roomId].boardState.resourcesOnBoard) {
        return Fault(AssertionFailed);
      }
      var msgs := TakeApply(roomId, userId, resources);
      return Ok(msgs);
    }

    /** The part of transition_take once the tokens are known to be available. */
    method TakeApply(roomId: int, userId: int, resources: seq<int>) returns (msgs: Msgs)
      requires Valid() && Seated(roomId, userId)
      requires TakeFits(resources, state.roomIdToGameState[roomId].boardState.resourcesOnBoard)
      modifies Footprint(roomId, userId)
      ensures Valid()
      ensures Outcome(Take(resources), roomId, userId, old(HoldingsAt(roomId, userId)), old(StockAt(roomId, userId)), msgs)
    {
      var game := state.roomIdToGameState[roomId];
      var board, player := game.boardState, game.userIdToPlayerState[userId];
      FootprintInRepr(roomId, userId);
      ghost var h, k := HoldingsAt(roomId, userId), StockAt(roomId, userId);
      TakeInRoom(state, roomId, userId, resources);
      var pub := game.GetPubState();
      msgs := [NotifyMsgArgs(roomId, 0, State(pub))];
      TakePerformed(resources, roomId, userId, h, k, HoldingsOf(board, player), StockOf(board, player), pub, msgs);
    }

    /** transition_purchase for the current user in the current room: the named card
        leaves a tier or the reserve and is bought, nobles visit, and the new public
        state goes to the whole room. */
    method TransitionPurchase(level: int, index: int) returns (r: Result<Msgs>)
      requires Valid()
      modifies Footprint(state.curRoomId, state.curUserId)
      ensures Valid()
      ensures r.Ok? <==> old(CanApply(Purchase(level, index), state.curRoomId, state.curUserId))
      ensures !old(Seated(state.curRoomId, state.curUserId)) ==> r == Fault(MissingKey)
      ensures r.Fault? ==> unchanged(Footprint(state.curRoomId, state.curUserId))
      ensures r.Ok? ==> Outcome(Purchase(level, index), state.curRoomId, state.curUserId, old(HoldingsAt(state.curRoomId, state.curUserId)), old(StockAt(state.curRoomId, state.curUserId)), r.value)
    {
      if state.curRoomId !in state.roomIdToGameState
        || state.curUserId !in state.roomIdToGameState[state.curRoomId].userIdToPlayerState {
        return Fault(MissingKey);
      }
      r := PurchaseSeated(state.curRoomId, state.curUserId, level, index);
    }

    /** The part of transition_purchase after both lookups have succeeded. */
    method PurchaseSeated(roomId: int, userId: int, level: int, index: int) returns (r: Result<Msgs>)
      requires Valid() && Seated(roomId, userId)
      modifies Footprint(roomId, userId)
      ensures Valid()
      ensures r.Ok? <==> old(CanApply(Purchase(level, index), roomId, userId))
      ensures r.Fault? ==> unchanged(Footprint(roomId, userId))
      ensures r.Ok? ==> Outcome(Purchase(level, index), roomId, userId, old(HoldingsAt(roomId, userId)), old(StockAt(roomId, userId)), r.value)
    {
      var game := state.roomIdToGameState[roomId];
      FootprintInRepr(roomId, userId);
      if !PurchaseFits(level, index, StockOf(game.boardState, game.userIdToPlayerState[userId])) {
        return Fault(IndexOutOfRange);
      }
      var msgs := PurchaseApply(roomId, userId, level, index);
      return Ok(msgs);
    }

    /** The part of transition_purchase once the card is known to be there. */
    method PurchaseApply(roomId: int, userId: int, level: int, index: int) returns (msgs: Msgs)
      requires Valid() && Seated(roomId, userId) && |BoardAt(roomId).devCards| == 3
      requires PurchaseFits(level, index, StockOf(BoardAt(roomId), PlayerAt(roomId, userId)))
      modifies Footprint(roomId, userId)
      ensures Valid()
      ensures Outcome(Purchase(level, index), roomId, userId, old(HoldingsAt(roomId, userId)), old(StockAt(roomId, userId)), msgs)
    {
      var game := state.roomIdToGameState[roomId];
      var board, player := game.boardState, game.userIdToPlayerState[userId];
      FootprintInRepr(roomId, userId);
      ghost var h, k := HoldingsAt(roomId, userId), StockAt(roomId, userId);
      var card := PurchaseInRoom(state, roomId, userId, level, index);
      var pub := game.GetPubState();
      msgs := [NotifyMsgArgs(roomId, 0, State(pub))];
      PurchasePerformed(level, index, card, roomId, userId, h, k, HoldingsOf(board, player), StockOf(board, player), pub, msgs);
    }

    /** transition_reserve for the current user in the current room: the named card, or
        the top of the tier's deck, joins the player's reserve; the card from a deck is
        shown to that user alone, and the new public state goes to the whole room. The
        player's token map has no Gold entry, so the Gold bonus panics: a reservation
        goes through only while the pool holds no Gold. */
    method TransitionReserve(level: int, index: int) returns (r: Result<Msgs>)
      requires Valid()
      modifies Footprint(state.curRoomId, state.curUserId)
      ensures Valid()
      ensures r.Ok? <==> old(CanApply(Reserve(level, index), state.curRoomId, state.curUserId))
      ensures !old(Seated(state.curRoomId, state.curUserId)) ==> r == Fault(MissingKey)
      ensures r.Fault? ==> unchanged(Footprint(state.curRoomId, state.curUserId))
      ensures r.Ok? ==> Outcome(Reserve(level, index), state.curRoomId, state.curUserId, old(HoldingsAt(state.curRoomId, state.curUserId)), old(StockAt(state.curRoomId, state.curUserId)), r.value)
    {
      if state.curRoomId !in state.roomIdToGameState
        || state.curUserId !in state.roomIdToGameState[state.curRoomId].userIdToPlayerState {
        return Fault(MissingKey);
      }
      r := ReserveSeated(state.curRoomId, state.curUserId, level, index);
    }

    /** The part of transition_reserve after both lookups have succeeded. */
    method ReserveSeated(roomId: int, userId: int, level: int, index: int) returns (r: Result<Msgs>)
      requires Valid() && Seated(roomId, userId)
      modifies Footprint(roomId, userId)
      ensures Valid()
      ensures r.Ok? <==> old(CanApply(Reserve(level, index), roomId, userId))
      ensures r.Fault? ==> unchanged(Footprint(roomId, userId))
      ensures r.Ok? ==> Outcome(Reserve(level, index), roomId, userId, old(HoldingsAt(roomId, userId)), old(StockAt(roomId, userId)), r.value)
    {
      var board := state.roomIdToGameState[roomId].boardState;
      FootprintInRepr(roomId, userId);
      if !(0 <= level < 3) {
        return Fault(IndexOutOfRange);
      }
      if index >= 0 && index >= |board.devCards[level].cardsOnBoard| {
        return Fault(IndexOutOfRange);
      }
      if index < 0 && board.devCards[level].deck == [] {
        return Fault(AssertionFailed);
      }
      if board.resourcesOnBoard[GOLD].number > 0 {
        return Fault(IndexOutOfRange);
      }
      var msgs := ReserveApply(roomId, userId, level, index);
      return Ok(msgs);
    }

    /** The part of transition_reserve once the card is known to be there and the pool
        to hold no Gold. */
    method ReserveApply(roomId: int, userId: int, level: int, index: int) returns (msgs: Msgs)
      requires Valid() && Seated(roomId, userId) && |BoardAt(roomId).devCards| == 3
      requires ReserveFits(level, index, StockOf(BoardAt(roomId), PlayerAt(roomId, userId)))
      requires |BoardAt(roomId).resourcesOnBoard| > GOLD && BoardAt(roomId).resourcesOnBoard[GOLD].number <= 0
      modifies Footprint(roomId, userId)
      ensures Valid()
      ensures Outcome(Reserve(level, index), roomId, userId, old(HoldingsAt(roomId, userId)), old(StockAt(roomId, userId)), msgs)
    {
      var game := state.roomIdToGameState[roomId];
      var board, player := game.boardState, game.userIdToPlayerState[userId];
      FootprintInRepr(roomId, userId);
      ghost var h, k := HoldingsAt(roomId, userId), StockAt(roomId, userId);
      var card := ReserveInRoom(state, roomId, userId, level, index);
      var reply := if index < 0 then [NotifyMsgArgs(roomId, userId, ReserveRsp(card))] else [];
      var pub := game.GetPubState();
      msgs := reply + [NotifyMsgArgs(roomId, 0, State(pub))];
      ReservePerformed(level, index, card, roomId, userId, h, k, HoldingsOf(board, player), StockOf(board, player), pub, msgs);
    }

    /** transition_user_operation: the operation for the current user in the current
        room, followed by its echo to everybody else in the room. */
    method TransitionUserOperation(op: UserOperation) returns (r: Result<Msgs>)
      requires Valid()
      modifies Footprint(state.curRoomId, state.curUserId)
      ensures Valid()
      ensures r.Ok? <==> old(CanApply(op, state.curRoomId, state.curUserId))
      ensures !old(Seated(state.curRoomId, state.curUserId)) ==> r == Fault(MissingKey)
      ensures r.Fault? ==> unchanged(Footprint(state.curRoomId, state.curUserId))
      ensures r.Ok? ==> Replied(op, state.curRoomId, state.curUserId,
        old(HoldingsAt(state.curRoomId, state.curUserId)), old(StockAt(state.curRoomId, state.curUserId)), r.value)
    {
      var msgs := Dispatch(op);
      if msgs.Fault? {
        return msgs;
      }
      r := Ok(msgs.value + [NotifyMsgArgs(state.curRoomId, -state.curUserId, LastUserOperation(op))]);
      assert r.value[..|r.value| - 1] == msgs.value;
    }

    /** The operation of transition_user_operation, before its echo. */
    method Dispatch(op: UserOperation) returns (r: Result<Msgs>)
      requires Valid()
      modifies Footprint(state.curRoomId, state.curUserId)
      ensures Valid()
      ensures r.Ok? <==> old(CanApply(op, state.curRoomId, state.curUserId))
      ensures !old(Seated(state.curRoomId, state.curUserId)) ==> r == Fault(MissingKey)
      ensures r.Fault? ==> unchanged(Footprint(state.curRoomId, state.curUserId))
      ensures r.Ok? ==> Outcome(op, state.curRoomId, state.curUserId, old(HoldingsAt(state.curRoomId, state.curUserId)), old(StockAt(state.curRoomId, state.curUserId)), r.value)
    {
      match op {
        case Take(resources) => r := TransitionTake(resources);
        case Purchase(level, index) => r := TransitionPurchase(level, index);
        case Reserve(level, index) => r := TransitionReserve(level, index);
      }
    }

    /** transition_user_operation_args: the message's room and user become the current
        ones, and the operation is carried out for them. */
    method TransitionUserOperationArgs(msg: UserOperationArgs<UserOperation>) returns (r: Result<Msgs>)
      requires Valid()
      modifies state, Footprint(msg.roomId, msg.userId)
      ensures Valid() && state.roomIdToGameState == old(state.roomIdToGameState) && state.Repr == old(state.Repr)
      ensures state.curRoomId == msg.roomId && state.curUserId == msg.userId
      ensures r.Ok? <==> old(CanApply(msg.custom, msg.roomId, msg.userId))
      ensures !old(Seated(msg.roomId, msg.userId)) ==> r == Fault(MissingKey)
      ensures r.Fault? ==> unchanged(Footprint(msg.roomId, msg.userId))
      ensures r.Ok? ==> Replied(msg.custom, msg.roomId, msg.userId,
        old(HoldingsAt(msg.roomId, msg.userId)), old(StockAt(msg.roomId, msg.userId)), r.value)
    {
      FootprintInRepr(msg.roomId, msg.userId);
      ghost var seated := Seated(msg.roomId, msg.userId);
      ghost var can := CanApply(msg.custom, msg.roomId, msg.userId);
      ghost var h := if seated then HoldingsAt(msg.roomId, msg.userId) else Holdings([], [], [], [], [], 0);
      ghost var k := if seated && |BoardAt(msg.roomId).devCards| == 3 then StockAt(msg.roomId, msg.userId) else Stock([], []);
      state.curRoomId := msg.roomId;
      state.curUserId := msg.userId;
      assert Seated(msg.roomId, msg.userId) == seated && CanApply(msg.custom, msg.roomId, msg.userId) == can;
      assert seated ==> HoldingsAt(msg.roomId, msg.userId) == h;
      assert seated && |BoardAt(msg.roomId).devCards| == 3 ==> StockAt(msg.roomId, msg.userId) == k;
      assert state !in Footprint(msg.roomId, msg.userId);
      ghost var rooms, repr := state.roomIdToGameState, state.Repr;
      r := TransitionUserOperation(msg.custom);
      assert state.roomIdToGameState == rooms && state.Repr == repr;
    }
  }
}
