/** The three Splendor user operations on values: when the engine carries one out
    without a panic, and what it does to the acting player's holdings and to the cards
    within their reach. The state machine's transitions are proved to do exactly this
    to the objects of the room. */
module SplendorMoves {
  import opened SplendorPb
  import opened SplendorSetup
  import opened SplendorRules
  import opened SplendorState

  /** What the operations can change besides cards: the board's pool and nobles, and
      the player's cards, token counters, nobles and points. */
  datatype Holdings = Holdings(
    pool: ResourceMap, onBoard: seq<Noble>,
    cards: seq<Development>, tokens: ResourceMap, nobles: seq<Noble>, points: int)

  /** One tier: its hidden deck, whose top is the last card, and its face-up cards. */
  datatype Tier = Tier(deck: seq<Development>, window: seq<Development>)

  /** The cards a player can reach: the tiers of the board and the player's reserve. */
  datatype Stock = Stock(tiers: seq<Tier>, reserved: seq<Development>)

  // ---------------------------------------------------------------------------
  // Take

  /** Every token a Take asks for can be handed over: it is a gem (a player's map has
      no Gold entry), and the pool holds at least as many of that gem as are asked for. */
  predicate TakeFits(resources: seq<int>, pool: ResourceMap)
  {
    forall i :: 0 <= i < |resources| ==>
      && 0 <= resources[i] < GOLD && resources[i] < |pool|
      && multiset(resources)[resources[i]] <= pool[resources[i]].number
  }

  /** A Take that fits asks for gems only, and for no more of each than the pool holds. */
  lemma TakeFitsCounts(resources: seq<int>, pool: ResourceMap)
    requires TakeFits(resources, pool) && |pool| == GOLD + 1
    ensures forall i :: 0 <= i < |resources| ==> 0 <= resources[i] < GOLD
    ensures forall t :: 0 <= t <= GOLD ==> multiset(resources)[t] <= pool[t].number || multiset(resources)[t] == 0
    ensures multiset(resources)[GOLD] == 0
  {
  }

  /** The effect of a Take: each listed token moves from the pool to the player's
      counter of its type; nothing else changes. */
  ghost predicate Took(before: Holdings, after: Holdings, resources: seq<int>)
  {
    && |before.pool| == GOLD + 1 && |after.pool| == GOLD + 1
    && |before.tokens| == GOLD && |after.tokens| == GOLD
    && (forall t :: 0 <= t <= GOLD ==>
          after.pool[t] == before.pool[t].(number := before.pool[t].number - multiset(resources)[t]))
    && (forall t :: 0 <= t < GOLD ==>
          after.tokens[t] == before.tokens[t].(number := before.tokens[t].number + multiset(resources)[t]))
    && after.onBoard == before.onBoard && after.cards == before.cards
    && after.nobles == before.nobles && after.points == before.points
  }

  /** A Take that fits keeps the pool a board pool, leaves Gold alone, and keeps every
      gem's total over the pool and the player's counter. */
  lemma TookConserves(before: Holdings, after: Holdings, resources: seq<int>)
    requires Took(before, after, resources) && TakeFits(resources, before.pool)
    requires IsBoardPool(before.pool)
    ensures IsBoardPool(after.pool)
    ensures after.pool[GOLD] == before.pool[GOLD]
    ensures forall t :: 0 <= t < GOLD ==>
      after.pool[t].number + after.tokens[t].number == before.pool[t].number + before.tokens[t].number
  {
    TakeFitsCounts(resources, before.pool);
  }

  // ---------------------------------------------------------------------------
  // Picking a card

  /** The cards of one tier, deck and face-up cards alike. */
  ghost function Cards(t: Tier): multiset<Development>
  {
    multiset(t.deck) + multiset(t.window)
  }

  /** The cards of the given tiers. */
  ghost function TierCards(tiers: seq<Tier>): multiset<Development>
  {
    CardsBelow(tiers, |tiers|)
  }

  /** The cards of the first n tiers. */
  ghost function CardsBelow(tiers: seq<Tier>, n: int): multiset<Development>
    requires 0 <= n <= |tiers|
  {
    if n == 0 then multiset{} else CardsBelow(tiers, n - 1) + Cards(tiers[n - 1])
  }

  /** Every card within reach. */
  ghost function AllCards(k: Stock): multiset<Development>
  {
    TierCards(k.tiers) + multiset(k.reserved)
  }

  /** Replacing a tier from n on leaves the cards of the first n tiers alone. */
  lemma {:induction false} CardsBelowUntouched(tiers: seq<Tier>, i: int, t: Tier, n: int)
    requires 0 <= n <= i < |tiers|
    ensures CardsBelow(tiers[i := t], n) == CardsBelow(tiers, n)
  {
    if n > 0 {
      CardsBelowUntouched(tiers, i, t, n - 1);
      assert tiers[i := t][n - 1] == tiers[n - 1];
    }
  }

  /** Replacing tier i, below n, changes the cards of the first n tiers by that tier's
      cards. */
  lemma {:induction false} CardsBelowUpdate(tiers: seq<Tier>, i: int, t: Tier, n: int)
    requires 0 <= i < n <= |tiers|
    ensures CardsBelow(tiers[i := t], n) + Cards(tiers[i]) == CardsBelow(tiers, n) + Cards(t)
  {
    if i == n - 1 {
      CardsBelowUntouched(tiers, i, t, n - 1);
      CardsBelowSwap(tiers, i, t);
    } else {
      CardsBelowUpdate(tiers, i, t, n - 1);
      CardsBelowStep(tiers, i, t, n);
    }
  }

  /** The replaced tier itself is the last one counted. */
  lemma CardsBelowSwap(tiers: seq<Tier>, i: int, t: Tier)
    requires 0 <= i < |tiers|
    requires CardsBelow(tiers[i := t], i) == CardsBelow(tiers, i)
    ensures CardsBelow(tiers[i := t], i + 1) + Cards(tiers[i]) == CardsBelow(tiers, i + 1) + Cards(t)
  {
    var a, was, now := CardsBelow(tiers, i), Cards(tiers[i]), Cards(t);
    assert tiers[i := t][i] == t;
    assert CardsBelow(tiers[i := t], i + 1) == a + now;
    assert CardsBelow(tiers, i + 1) == a + was;
    forall c
      ensures (a + now + was)[c] == (a + was + now)[c]
    {
    }
  }

  /** One more tier, other than the replaced one, on both sides of the update. */
  lemma CardsBelowStep(tiers: seq<Tier>, i: int, t: Tier, n: int)
    requires 0 <= i < n - 1 && n <= |tiers|
    requires CardsBelow(tiers[i := t], n - 1) + Cards(tiers[i]) == CardsBelow(tiers, n - 1) + Cards(t)
    ensures CardsBelow(tiers[i := t], n) + Cards(tiers[i]) == CardsBelow(tiers, n) + Cards(t)
  {
    var u := tiers[i := t];
    var a, b := CardsBelow(u, n - 1), CardsBelow(tiers, n - 1);
    var was, now, last := Cards(tiers[i]), Cards(t), Cards(tiers[n - 1]);
    assert u[n - 1] == tiers[n - 1];
    assert CardsBelow(u, n) == a + last;
    assert CardsBelow(tiers, n) == b + last;
    forall c
      ensures (a + last + was)[c] == (b + last + now)[c]
    {
      assert (a + was)[c] == (b + now)[c];
    }
  }

  /** Replacing one tier changes the cards of all tiers by that tier's cards. */
  lemma TierCardsUpdate(tiers: seq<Tier>, i: int, t: Tier)
    requires 0 <= i < |tiers|
    ensures TierCards(tiers[i := t]) + Cards(tiers[i]) == TierCards(tiers) + Cards(t)
  {
    CardsBelowUpdate(tiers, i, t, |tiers|);
  }

  /** DevCardsLevelState::take on the tier at `level`, as a change of the stock. */
  function TakeFromTier(k: Stock, level: int, index: int): (r: (Stock, Development))
    requires 0 <= level < |k.tiers| && 0 <= index < |k.tiers[level].window|
    ensures |r.0.tiers| == |k.tiers| && r.0.reserved == k.reserved
  {
    var t := TakeFrom(k.tiers[level].deck, k.tiers[level].window, index);
    (Stock(k.tiers[level := Tier(t.0, t.1)], k.reserved), t.2)
  }

  /** Taking from a tier: with an empty deck the card leaves the stock; otherwise the
      card handed out is the deck's top, which also stays face up in the slot, and it is
      the card that was in the slot that leaves the stock. */
  lemma TakeFromTierCards(k: Stock, level: int, index: int)
    requires 0 <= level < |k.tiers| && 0 <= index < |k.tiers[level].window|
    ensures var (after, card) := TakeFromTier(k, level, index);
      && (k.tiers[level].deck == [] ==> AllCards(after) + multiset{card} == AllCards(k))
      && (k.tiers[level].deck != [] ==>
            && AllCards(after) + multiset{k.tiers[level].window[index]} == AllCards(k)
            && after.tiers[level].window[index] == card)
  {
    var tier := k.tiers[level];
    var t := TakeFrom(tier.deck, tier.window, index);
    var lost := if tier.deck == [] then t.2 else tier.window[index];
    assert Cards(Tier(t.0, t.1)) + multiset{lost} == Cards(tier);
    ReplaceTierCards(k, level, Tier(t.0, t.1), lost);
  }

  /** A tier that gave up one card, `lost`, leaves the stock with all its other cards. */
  lemma ReplaceTierCards(k: Stock, level: int, t: Tier, lost: Development)
    requires 0 <= level < |k.tiers|
    requires Cards(t) + multiset{lost} == Cards(k.tiers[level])
    ensures AllCards(Stock(k.tiers[level := t], k.reserved)) + multiset{lost} == AllCards(k)
  {
    var after := Stock(k.tiers[level := t], k.reserved);
    TierCardsUpdate(k.tiers, level, t);
    forall c
      ensures (AllCards(after) + multiset{lost})[c] == AllCards(k)[c]
    {
      assert (Cards(t) + multiset{lost})[c] == Cards(k.tiers[level])[c];
      assert (TierCards(after.tiers) + Cards(k.tiers[level]))[c] == (TierCards(k.tiers) + Cards(t))[c];
    }
  }

  /** The card a Purchase names exists: a face-up card of a tier when the level is not
      negative, one of the player's reserved cards otherwise. */
  predicate PurchaseFits(level: int, index: int, k: Stock)
  {
    if level >= 0 then level < |k.tiers| && 0 <= index < |k.tiers[level].window|
    else 0 <= index < |k.reserved|
  }

  /** Step 1 of transition_purchase: the card comes from its tier, or leaves the reserve. */
  function PickForPurchase(k: Stock, level: int, index: int): (r: (Stock, Development))
    requires PurchaseFits(level, index, k)
    ensures |r.0.tiers| == |k.tiers|
  {
    if level >= 0 then TakeFromTier(k, level, index)
    else (Stock(k.tiers, k.reserved[..index] + k.reserved[index + 1..]), k.reserved[index])
  }

  /** The card a Purchase picks leaves the cards within reach, except that a card taken
      from a tier whose deck has cards stays face up while the one it replaced is lost. */
  lemma PurchasePickCards(k: Stock, level: int, index: int)
    requires PurchaseFits(level, index, k)
    ensures var (after, card) := PickForPurchase(k, level, index);
      && (level < 0 || k.tiers[level].deck == [] ==> AllCards(after) + multiset{card} == AllCards(k))
      && (level >= 0 && k.tiers[level].deck != [] ==>
            AllCards(after) + multiset{k.tiers[level].window[index]} == AllCards(k))
  {
    if level >= 0 {
      TakeFromTierCards(k, level, index);
    } else {
      assert k.reserved == k.reserved[..index] + [k.reserved[index]] + k.reserved[index + 1..];
    }
  }

  /** The card a Reserve names exists: a face-up card of the tier when the index is not
      negative, the top of the tier's deck otherwise. */
  predicate ReserveFits(level: int, index: int, k: Stock)
  {
    && 0 <= level < |k.tiers|
    && if index >= 0 then index < |k.tiers[level].window| else k.tiers[level].deck != []
  }

  /** Step 1 of transition_reserve: the card comes from its tier, or is popped from the
      tier's deck, and joins the end of the reserve. */
  function PickForReserve(k: Stock, level: int, index: int): (r: (Stock, Development))
    requires ReserveFits(level, index, k)
    ensures |r.0.tiers| == |k.tiers| && r.0.reserved == k.reserved + [r.1]
  {
    var tier := k.tiers[level];
    if index >= 0 then
      var t := TakeFromTier(k, level, index);
      (Stock(t.0.tiers, k.reserved + [t.1]), t.1)
    else
      var top := tier.deck[|tier.deck| - 1];
      (Stock(k.tiers[level := Tier(tier.deck[..|tier.deck| - 1], tier.window)], k.reserved + [top]), top)
  }

  /** A Reserve moves a card into the reserve without losing any, except that a card
      taken from a tier whose deck has cards stays face up while the one it replaced
      is lost. */
  lemma ReservePickCards(k: Stock, level: int, index: int)
    requires ReserveFits(level, index, k)
    ensures var (after, card) := PickForReserve(k, level, index);
      && (index < 0 || k.tiers[level].deck == [] ==> AllCards(after) == AllCards(k))
      && (index >= 0 && k.tiers[level].deck != [] ==>
            AllCards(after) + multiset{k.tiers[level].window[index]} == AllCards(k) + multiset{card})
  {
    if index >= 0 {
      TakeFromTierCards(k, level, index);
    } else {
      PopTopCards(k, level);
    }
  }

  /** Popping a tier's top card into the reserve loses no card. */
  lemma PopTopCards(k: Stock, level: int)
    requires 0 <= level < |k.tiers| && k.tiers[level].deck != []
    ensures var tier := k.tiers[level];
      var top := tier.deck[|tier.deck| - 1];
      AllCards(Stock(k.tiers[level := Tier(tier.deck[..|tier.deck| - 1], tier.window)], k.reserved + [top]))
        == AllCards(k)
  {
    var tier := k.tiers[level];
    var top := tier.deck[|tier.deck| - 1];
    var popped := Tier(tier.deck[..|tier.deck| - 1], tier.window);
    assert tier.deck == popped.deck + [top];
    assert Cards(popped) + multiset{top} == Cards(tier);
    ReplaceTierCards(k, level, popped, top);
    var after := Stock(k.tiers[level := popped], k.reserved + [top]);
    assert multiset(after.reserved) == multiset(k.reserved) + multiset{top};
    assert AllCards(after) == AllCards(Stock(k.tiers[level := popped], k.reserved)) + multiset{top};
  }

  // ---------------------------------------------------------------------------
  // Buying a card

  /** The effect of buying `card`: the card joins the player with its points, its price
      leaves the player's counters and returns to the pool, and the nobles that the
      player's new production satisfies leave the board for the player (last position
      first) with their points. */
  ghost predicate Bought(before: Holdings, after: Holdings, card: Development)
  {
    && |before.tokens| == GOLD && |after.tokens| == GOLD
    && |before.pool| == GOLD + 1 && |after.pool| == GOLD + 1
    && after.cards == before.cards + [card]
    && GemColoured(after.cards)
    && (forall t :: 0 <= t < GOLD ==>
          after.tokens[t] == before.tokens[t].(number := before.tokens[t].number - Total(card.price, t)))
    && (forall t :: 0 <= t <= GOLD ==>
          after.pool[t] == before.pool[t].(number := before.pool[t].number + Total(card.price, t)))
    && after.onBoard == Survivors(before.onBoard, Production(after.cards))
    && after.nobles == before.nobles + Reverse(Acquired(before.onBoard, Production(after.cards)))
    && after.points == before.points + card.points + NoblePoints(Acquired(before.onBoard, Production(after.cards)))
  }

  /** A player who owned `cards` and `nobles` is worth the new card and the gained
      nobles on top once they are added. */
  lemma PointsAfterPurchase(cards: seq<Development>, card: Development, nobles: seq<Noble>, gained: seq<Noble>)
    ensures DevPoints(cards + [card]) == DevPoints(cards) + card.points
    ensures NoblePoints(nobles + Reverse(gained)) == NoblePoints(nobles) + NoblePoints(gained)
  {
    assert (cards + [card])[..|cards|] == cards;
    NoblePointsAppend(nobles, Reverse(gained));
    NoblePointsReverse(gained);
  }

  /** Reading a list backwards keeps its elements. */
  lemma {:induction false} ReverseMultiset(s: seq<Noble>)
    ensures multiset(Reverse(s)) == multiset(s)
  {
    if s != [] {
      ReverseMultiset(s[1..]);
      assert s == [s[0]] + s[1..];
    }
  }

  /** A purchase keeps every gem's total over the pool and the player's counters, keeps
      every noble either on the board or with the player, and keeps the player's points
      equal to what their cards and nobles are worth. */
  lemma BoughtConserves(before: Holdings, after: Holdings, card: Development)
    requires Bought(before, after, card)
    ensures forall t :: 0 <= t < GOLD ==>
      after.pool[t].number + after.tokens[t].number == before.pool[t].number + before.tokens[t].number
    ensures multiset(after.onBoard) + multiset(after.nobles) == multiset(before.onBoard) + multiset(before.nobles)
    ensures before.points == DevPoints(before.cards) + NoblePoints(before.nobles) ==>
      after.points == DevPoints(after.cards) + NoblePoints(after.nobles)
  {
    var production := Production(after.cards);
    NoblesPartition(before.onBoard, production);
    ReverseMultiset(Acquired(before.onBoard, production));
    PointsAfterPurchase(before.cards, card, before.nobles, Acquired(before.onBoard, production));
  }

  /** The nobles on the board and those of the player stay well formed when visitors
      move from one to the other. */
  lemma NoblesStayWellFormed(onBoard: seq<Noble>, owned: seq<Noble>, production: ResourceMap)
    requires AllWellFormedNobles(onBoard) && AllWellFormedNobles(owned)
    ensures AllWellFormedNobles(Survivors(onBoard, production))
    ensures AllWellFormedNobles(owned + Reverse(Acquired(onBoard, production)))
  {
    var stay := Survivors(onBoard, production);
    var acquired := Acquired(onBoard, production);
    var gained := Reverse(acquired);
    SplitMembers(onBoard, production);
    forall k | 0 <= k < |stay|
      ensures WellFormedNoble(stay[k])
    {
      assert stay[k] in stay;
    }
    forall k | 0 <= k < |owned + gained|
      ensures WellFormedNoble((owned + gained)[k])
    {
      if k >= |owned| {
        var i := k - |owned|;
        assert (owned + gained)[k] == acquired[|acquired| - 1 - i];
        assert acquired[|acquired| - 1 - i] in acquired;
      }
    }
  }

  /** The price of a well-formed card adds nothing negative to any pool entry and
      nothing at all to Gold. */
  lemma PriceTotals(card: Development)
    requires WellFormedDev(card)
    ensures forall t :: Total(card.price, t) >= 0
    ensures Total(card.price, GOLD) == 0
  {
    forall t
      ensures Total(card.price, t) >= 0
    {
      TotalNonNegative(card.price, t);
    }
    TotalOutside(card.price, GOLD, GOLD);
  }

  // ---------------------------------------------------------------------------
  // The three operations together

  /** The engine carries out `op` without a panic exactly when this holds. A Reserve
      also needs the pool to hold no Gold: with Gold left, the bonus token is added to
      entry Gold of the player's map, which has no such entry. */
  predicate Allowed(op: UserOperation, h: Holdings, k: Stock)
  {
    match op
    case Take(resources) => TakeFits(resources, h.pool)
    case Purchase(level, index) => PurchaseFits(level, index, k)
    case Reserve(level, index) => ReserveFits(level, index, k) && GOLD < |h.pool| && h.pool[GOLD].number <= 0
  }

  /** What an operation that went through did to the holdings and the stock. */
  ghost predicate Applied(op: UserOperation, hBefore: Holdings, kBefore: Stock, hAfter: Holdings, kAfter: Stock)
    requires Allowed(op, hBefore, kBefore)
  {
    match op
    case Take(resources) => Took(hBefore, hAfter, resources) && kAfter == kBefore
    case Purchase(level, index) =>
      var picked := PickForPurchase(kBefore, level, index);
      kAfter == picked.0 && Bought(hBefore, hAfter, picked.1)
    case Reserve(level, index) =>
      kAfter == PickForReserve(kBefore, level, index).0 && hAfter == hBefore
  }
}
