/** The UNO engine's mutable state (uno/src/state.rs): the room registry, each room's
    game with its deck and its players' hand counts, and how a game opens. */
module UnoState {
  import opened Provider
  import opened UnoPb
  import opened UnoCard

  // ---------------------------------------------------------------------------
  // The flipped card

  /** Some card of s is not Black. */
  predicate HasColoured(s: seq<Card>)
  {
    exists k :: 0 <= k < |s| && s[k].color != Black
  }

  /** Whether the flip loop of game_start stops. It stops at the first card that is not
      Black, putting every Black card it meets at the bottom of the pile. A non-empty
      pile never empties again, so it is searched alone; an empty pile is first
      replaced by the discard pile. */
  predicate Flippable(pile: seq<Card>, discardPile: seq<Card>)
  {
    if pile != [] then HasColoured(pile) else HasColoured(discardPile)
  }

  /** Behind a Black front card there is still a card that is not Black. */
  lemma ShiftColoured(s: seq<Card>)
    requires HasColoured(s) && s[0].color == Black
    ensures HasColoured(s[1..])
  {
    var k :| 0 <= k < |s| && s[k].color != Black;
    assert s[1..][k - 1] == s[k];
  }

  /** The position of the first card that is not Black. */
  ghost function FirstColoured(s: seq<Card>): (i: nat)
    requires HasColoured(s)
    ensures i < |s| && s[i].color != Black
    ensures forall k :: 0 <= k < i ==> s[k].color == Black
  {
    if s[0].color != Black then 0
    else
      ShiftColoured(s);
      var i := FirstColoured(s[1..]);
      assert forall k :: 1 <= k <= i ==> s[k] == s[1..][k - 1];
      1 + i
  }

  /** A card that is not Black with only Black cards before it is the first such card. */
  lemma FirstColouredAt(s: seq<Card>, j: int)
    requires 0 <= j < |s| && s[j].color != Black
    requires forall k :: 0 <= k < j ==> s[k].color == Black
    ensures HasColoured(s) && FirstColoured(s) == j
  {
  }

  /** Putting a Black front card at the bottom brings the first card that is not Black
      one place nearer the front. */
  lemma RotateBlack(s: seq<Card>)
    requires HasColoured(s) && s[0].color == Black
    ensures HasColoured(s[1..] + [s[0]])
    ensures FirstColoured(s[1..] + [s[0]]) == FirstColoured(s) - 1
  {
    var i := FirstColoured(s);
    var t := s[1..] + [s[0]];
    assert t[i - 1] == s[i];
    assert forall k :: 0 <= k < i - 1 ==> t[k] == s[k + 1];
    FirstColouredAt(t, i - 1);
  }

  /** The pile the flip loop sees after j Black cards went to the bottom: the search
      goes on from position j of the pile it started with. */
  ghost predicate RotatedBy(pile0: seq<Card>, j: int, pile: seq<Card>)
  {
    && HasColoured(pile0) && 0 <= j <= FirstColoured(pile0)
    && pile == pile0[j..] + pile0[..j]
  }

  /** A Black card at the front goes to the bottom: one more position searched. */
  lemma RotateStep(pile0: seq<Card>, j: int, pile: seq<Card>)
    requires RotatedBy(pile0, j, pile) && pile[0].color == Black
    ensures RotatedBy(pile0, j + 1, pile[1..] + [pile[0]])
  {
    assert pile[0] == pile0[j];
    assert pile[1..] == pile0[j + 1..] + pile0[..j];
    assert pile0[..j + 1] == pile0[..j] + [pile0[j]];
  }

  /** The front card is not Black: it is the first such card of the starting pile,
      and the cards behind it are those after it followed by those before it. */
  lemma RotateStop(pile0: seq<Card>, j: int, pile: seq<Card>)
    requires RotatedBy(pile0, j, pile) && pile[0].color != Black
    ensures j == FirstColoured(pile0) && pile[0] == pile0[j]
    ensures pile[1..] == pile0[j + 1..] + pile0[..j]
  {
    assert pile[0] == pile0[j];
  }

  /** Two key sets listed by the same iteration order are equal. */
  lemma SameKeys(a: set<int>, b: set<int>, order: seq<int>)
    requires forall u :: u in a <==> u in order
    requires IsOrderOf(order, b)
    ensures a == b
  {
    forall u | u in order
      ensures u in b
    {
      var i :| 0 <= i < |order| && order[i] == u;
    }
    assert forall u :: u in a <==> u in b;
  }

  /** What seven cards for each of n players leave of a full deck: 108 - 7n cards,
      among them one that is not Black for up to 14 players, and three cards for 15. */
  lemma FullDeckDealt(pile0: seq<Card>, pile: seq<Card>, discardPile: seq<Card>, dealt: seq<seq<Card>>)
    requires IsFullDeck(multiset(pile0))
    requires multiset(pile) + multiset(discardPile) + Bag(dealt) == multiset(pile0)
    requires 7 * |dealt| <= |pile0| ==> discardPile == []
    requires forall p :: 0 <= p < |dealt| ==> |dealt[p]| == 7
    ensures discardPile == [] && |pile| == 108 - 7 * |dealt|
    ensures |dealt| <= 14 ==> Flippable(pile, discardPile)
    ensures |dealt| == 15 ==> pile != []
  {
    BagSize(dealt);
    assert |pile0| == |multiset(pile0)| == 108;
    assert discardPile == [];
    assert multiset(pile) + Bag(dealt) == multiset(pile0);
    assert |multiset(pile)| + |Bag(dealt)| == 108;
    if |dealt| <= 14 {
      ColouredRemains(pile, multiset(pile0));
    }
  }

  /** Reordering the cards keeps a card that is not Black. */
  lemma ColouredKept(s: seq<Card>, t: seq<Card>)
    requires HasColoured(s) && multiset(s) == multiset(t)
    ensures HasColoured(t)
  {
    var k :| 0 <= k < |s| && s[k].color != Black;
    assert s[k] in multiset(t);
    var m :| 0 <= m < |t| && t[m] == s[k];
  }

  /** The flipped card as game_start shows it: its colour kept, and a DrawTwo or
      DrawFour shown as Empty, so that the opening never makes anybody draw. */
  function Shown(c: Card): (r: Card)
    ensures r.color == c.color
    ensures r.text != DrawTwo && r.text != DrawFour
    ensures c.text != DrawTwo && c.text != DrawFour ==> r == c
  {
    if c.text == DrawTwo || c.text == DrawFour then Card(c.color, Empty) else c
  }

  /** A list holding only copies of a and b is as long as its copies of both. */
  lemma {:induction false} TwoKinds(s: seq<Card>, a: Card, b: Card)
    requires a != b
    requires forall k :: 0 <= k < |s| ==> s[k] == a || s[k] == b
    ensures |s| == multiset(s)[a] + multiset(s)[b]
  {
    if s != [] {
      var rest := s[..|s| - 1];
      assert s == rest + [s[|s| - 1]];
      TwoKinds(rest, a, b);
    }
  }

  /** A full deck holds only eight Black cards, so more than eight of its cards include
      one that is not Black. */
  lemma ColouredRemains(s: seq<Card>, full: multiset<Card>)
    requires IsFullDeck(full) && multiset(s) <= full && |s| > 8
    ensures HasColoured(s)
  {
    if !HasColoured(s) {
      var wild, drawFour := Card(Black, Wild), Card(Black, DrawFour);
      forall k | 0 <= k < |s|
        ensures s[k] == wild || s[k] == drawFour
      {
        assert s[k] in multiset(s);
        assert full[s[k]] == Copies(s[k]);
      }
      assert full[wild] == 4 && full[drawFour] == 4;
      assert multiset(s)[wild] <= 4 && multiset(s)[drawFour] <= 4;
      TwoKinds(s, wild, drawFour);
      assert false;  // s would hold at most eight cards
    }
  }

  // ---------------------------------------------------------------------------
  // Counting cards

  /** The sum of m's values at the listed keys. */
  function Sum(m: map<int, int>, ids: seq<int>): int
    requires forall i :: 0 <= i < |ids| ==> ids[i] in m
  {
    if ids == [] then 0 else Sum(m, ids[..|ids| - 1]) + m[ids[|ids| - 1]]
  }

  /** Changing the value at a key listed at most once changes the sum by as much, or
      not at all when the key is not listed. */
  lemma {:induction false} SumUpdate(m: map<int, int>, ids: seq<int>, u: int, v: int)
    requires forall i :: 0 <= i < |ids| ==> ids[i] in m
    requires forall i, j :: 0 <= i < j < |ids| ==> ids[i] != ids[j]
    requires u in m
    ensures Sum(m[u := v], ids) == Sum(m, ids) + (if u in ids then v - m[u] else 0)
  {
    if ids != [] {
      var rest := ids[..|ids| - 1];
      SumUpdate(m, rest, u, v);
      assert u in ids <==> u in rest || u == ids[|ids| - 1];
    }
  }

  /** Seven at every listed key sums to seven per key. */
  lemma {:induction false} SumSevens(m: map<int, int>, ids: seq<int>)
    requires forall i :: 0 <= i < |ids| ==> ids[i] in m && m[ids[i]] == 7
    ensures Sum(m, ids) == 7 * |ids|
  {
    if ids != [] {
      SumSevens(m, ids[..|ids| - 1]);
    }
  }

  /** Hands of seven cards hold seven cards per hand. */
  lemma {:induction false} BagSize(hands: seq<seq<Card>>)
    requires forall p :: 0 <= p < |hands| ==> |hands[p]| == 7
    ensures |Bag(hands)| == 7 * |hands|
  {
    if hands != [] {
      BagSize(hands[..|hands| - 1]);
    }
  }

  /** A list of ids names at most as many users as it has entries, and exactly as many
      when no id repeats. */
  lemma {:induction false} IdsCount(ids: seq<int>)
    ensures |set u | u in ids| <= |ids|
    ensures (forall i, j :: 0 <= i < j < |ids| ==> ids[i] != ids[j]) ==> |set u | u in ids| == |ids|
  {
    if ids != [] {
      var rest := ids[..|ids| - 1];
      var last := ids[|ids| - 1];
      IdsCount(rest);
      assert ids == rest + [last];
      assert (set u | u in ids) == (set u | u in rest) + {last};
    }
  }

  /** The keys of a map built from a list of ids are at most as many as the ids, and
      exactly as many when no id repeats. */
  lemma KeysCount(keys: set<int>, ids: seq<int>)
    requires forall u :: u in keys <==> u in ids
    ensures |keys| <= |ids|
    ensures (forall i, j :: 0 <= i < j < |ids| ==> ids[i] != ids[j]) ==> |keys| == |ids|
  {
    IdsCount(ids);
    var named := set u | u in ids;
    assert forall u :: u in keys <==> u in named;
    assert keys == named;
  }

  // ---------------------------------------------------------------------------
  // Players and games

  class PlayerState {
    var handcardsNum: int

    /** PlayerState::new: seven cards in hand. */
    constructor ()
      ensures handcardsNum == 7
    {
      handcardsNum := 7;
    }
  }

  /** What game_start hands back: each player's dealt cards by user id, the flipped
      card, and the index of the player who goes first. */
  datatype Opening = Opening(handcards: map<int, seq<Card>>, flippedCard: Card, firstPlayer: int)

  class GameState {
    const playerNum: nat
    const gameSettings: StartGameSettings
    const deck: Deck
    const userIdToPlayerState: map<int, PlayerState>
    /** The order in which the HashMap of players happens to be iterated. */
    const order: seq<int>

    ghost function Players(): set<PlayerState>
    {
      set u | u in userIdToPlayerState :: userIdToPlayerState[u]
    }

    ghost function Repr(): set<object>
    {
      {this, deck} + Players()
    }

    /** Distinct players, an iteration order of their ids, and no more ids than the
        list the game was built from. */
    ghost predicate Valid()
    {
      && (forall u, v :: u in userIdToPlayerState && v in userIdToPlayerState && u != v ==>
            userIdToPlayerState[u] != userIdToPlayerState[v])
      && IsOrderOf(order, userIdToPlayerState.Keys)
      && |order| <= playerNum
    }

    constructor (playerNum: nat, gameSettings: StartGameSettings, deck: Deck,
                 players: map<int, PlayerState>, order: seq<int>)
      ensures this.playerNum == playerNum && this.gameSettings == gameSettings
      ensures this.deck == deck && userIdToPlayerState == players && this.order == order
    {
      this.playerNum := playerNum;
      this.gameSettings := gameSettings;
      this.deck := deck;
      userIdToPlayerState := players;
      this.order := order;
    }

    /** The player map of GameState::new: a new player per listed user id; a repeated
        id keeps the player created last. */
    static method NewPlayers(userIds: seq<UserId>) returns (players: map<int, PlayerState>)
      ensures forall u :: u in players <==> u in userIds
      ensures forall u :: u in players ==> fresh(players[u]) && players[u].handcardsNum == 7
      ensures forall u, v :: u in players && v in players && u != v ==> players[u] != players[v]
    {
      players := map[];
      for i := 0 to |userIds|
        invariant forall u :: u in players <==> exists j :: 0 <= j < i && userIds[j] == u
        invariant forall u :: u in players ==> fresh(players[u]) && players[u].handcardsNum == 7
        invariant forall u, v :: u in players && v in players && u != v ==> players[u] != players[v]
      {
        var p := new PlayerState();
        players := players[userIds[i] := p];
      }
    }

    /** GameState::new: the players, player_num the length of the id list, and a new
        deck. Without repeated ids there are as many players as ids. */
    static method New(userIds: seq<UserId>, gameSettings: StartGameSettings) returns (g: GameState)
      ensures fresh(g) && fresh(g.deck) && fresh(g.Players())
      ensures g.Valid()
      ensures g.playerNum == |userIds| && g.gameSettings == gameSettings
      ensures forall u :: u in g.userIdToPlayerState <==> u in userIds
      ensures forall u :: u in g.userIdToPlayerState ==> g.userIdToPlayerState[u].handcardsNum == 7
      ensures g.deck.discardPile == [] && IsFullDeck(multiset(g.deck.pile))
      ensures (forall i, j :: 0 <= i < j < |userIds| ==> userIds[i] != userIds[j]) ==> |g.order| == |userIds|
    {
      var players := NewPlayers(userIds);
      var deck := new Deck();
      InitialPileFull();
      OrderExists(players.Keys);
      var order :| IsOrderOf(order, players.Keys);
      OrderSize(order, players.Keys);
      KeysCount(players.Keys, userIds);
      g := new GameState(|userIds|, gameSettings, deck, players, order);
    }

    /** Each player's hand count, by user id. */
    ghost function Counts(): map<int, int>
      reads Players()
    {
      map u | u in userIdToPlayerState :: userIdToPlayerState[u].handcardsNum
    }

    /** The cards the game accounts for: those in the deck and those its players are
        counted as holding. */
    ghost function Accounted(): int
      reads Repr()
      requires Valid()
    {
      |deck.Contents()| + Sum(Counts(), order)
    }

    /** The flip loop of game_start: cards are drawn until one is not Black, each Black
        card going to the bottom of the pile, and a DrawTwo or DrawFour found is shown
        without its text. The card drawn leaves the deck and is put nowhere. The loop
        stops exactly when Flippable holds; otherwise draw panics (both piles empty) or
        the loop never ends. */
    method FlipCard() returns (r: Result<Card>, ghost drawn: Card)
      modifies deck
      ensures r.Ok? <==> old(Flippable(deck.pile, deck.discardPile))
      ensures r.Fault? ==> unchanged(deck)
      ensures r.Fault? ==>
        r.fault == if old(deck.pile) == [] && old(deck.discardPile) == [] then EmptyPile else NeverTerminates
      ensures r.Ok? ==> drawn.color != Black && r.value == Shown(drawn)
      ensures r.Ok? ==> deck.Contents() + multiset{drawn} == old(deck.Contents())
      ensures r.Ok? && old(deck.pile) != [] ==>
        var i := FirstColoured(old(deck.pile));
        && drawn == old(deck.pile)[i]
        && deck.pile == old(deck.pile)[i + 1..] + old(deck.pile)[..i]
        && deck.discardPile == old(deck.discardPile)
    {
      if !Flippable(deck.pile, deck.discardPile) {
        r := Fault(if deck.pile == [] && deck.discardPile == [] then EmptyPile else NeverTerminates);
        return r, Card(Black, Wild);
      }
      ghost var pile0 := deck.pile;
      ghost var j := 0;
      while true
        invariant Flippable(deck.pile, deck.discardPile)
        invariant deck.Contents() == old(deck.Contents())
        invariant pile0 != [] ==> RotatedBy(pile0, j, deck.pile) && deck.discardPile == old(deck.discardPile)
        decreases if deck.pile == [] then |deck.Contents()| + 1 else FirstColoured(deck.pile)
      {
        ghost var before := deck.pile;
        var c := FlipStep();
        if c.color != Black {
          if pile0 != [] {
            RotateStop(pile0, j, before);
          }
          drawn := c;
          r := Ok(Shown(c));
          return;
        }
        if pile0 != [] {
          RotateStep(pile0, j, before);
          j := j + 1;
        }
      }
    }

    /** One turn of the flip loop: a card drawn, and put at the bottom of the pile when
        it is Black. A Black card keeps the loop able to stop and brings the first card
        that is not Black nearer the front. */
    method FlipStep() returns (c: Card)
      requires Flippable(deck.pile, deck.discardPile)
      modifies deck
      ensures c.color != Black ==> deck.Contents() + multiset{c} == old(deck.Contents())
      ensures c.color == Black ==>
        && deck.Contents() == old(deck.Contents())
        && deck.pile != [] && Flippable(deck.pile, deck.discardPile)
        && FirstColoured(deck.pile) < if old(deck.pile) == [] then |deck.Contents()| + 1 else FirstColoured(old(deck.pile))
      ensures old(deck.pile) != [] ==>
        && c == old(deck.pile)[0]
        && deck.pile == old(deck.pile)[1..] + (if c.color == Black then [c] else [])
        && deck.discardPile == old(deck.discardPile)
    {
      ghost var before, discard := deck.pile, deck.discardPile;
      var drawn := deck.Draw();
      assert drawn.Ok?;
      c := drawn.value;
      if c.color == Black {
        deck.PutToBottom(c);
        if before != [] {
          RotateBlack(before);
          assert deck.pile == before[1..] + [before[0]];
        } else {
          ColouredKept(discard, deck.pile);
          assert |deck.pile| == |multiset(deck.pile)| <= |deck.Contents()|;
        }
      }
    }

    /** The map loop of game_start: the i-th user id of the iteration order receives
        the i-th hand. */
    static method HandOut(order: seq<int>, hands: seq<seq<Card>>) returns (handcards: map<int, seq<Card>>)
      requires |order| <= |hands|
      requires forall i, j :: 0 <= i < j < |order| ==> order[i] != order[j]
      ensures forall u :: u in handcards <==> u in order
      ensures forall k :: 0 <= k < |order| ==> order[k] in handcards && handcards[order[k]] == hands[k]
    {
      handcards := map[];
      for i := 0 to |order|
        invariant forall u :: u in handcards <==> u in order[..i]
        invariant forall k :: 0 <= k < i ==> order[k] in handcards && handcards[order[k]] == hands[k]
      {
        assert order[..i + 1] == order[..i] + [order[i]];
        handcards := handcards[order[i] := hands[i]];
      }
      assert order[..|order|] == order;
    }

    /** The first half of game_start: seven cards dealt to each of player_num players,
        and the hands handed to the players in the map's iteration order. From a full
        deck, up to 14 players leave a card that is not Black on the pile, and 15
        players leave three cards. */
    method DealHands() returns (r: Result<map<int, seq<Card>>>, ghost dealt: seq<seq<Card>>)
      requires Valid()
      modifies deck
      ensures r.Ok? <==> 7 * playerNum <= |old(deck.Contents())|
      ensures r.Fault? ==> r.fault == EmptyPile && deck.pile == old(deck.pile) && deck.discardPile == old(deck.discardPile)
      ensures r.Ok? ==> |dealt| == playerNum && forall p :: 0 <= p < playerNum ==> |dealt[p]| == 7
      ensures r.Ok? ==> r.value.Keys == userIdToPlayerState.Keys
      ensures r.Ok? ==> forall j :: 0 <= j < |order| ==> r.value[order[j]] == dealt[j]
      ensures r.Ok? ==> deck.Contents() + Bag(dealt) == old(deck.Contents())
      ensures r.Ok? && old(deck.discardPile) == [] && IsFullDeck(multiset(old(deck.pile))) ==>
        && (playerNum <= 14 ==> Flippable(deck.pile, deck.discardPile))
        && (playerNum == 15 ==> deck.pile != [])
    {
      ghost var full := deck.discardPile == [] && IsFullDeck(multiset(deck.pile));
      ghost var pile0 := deck.pile;
      if full {
        assert deck.Contents() == multiset(pile0);
      }
      var hands := deck.DealInitHandcards(playerNum);
      if hands.Fault? {
        return Fault(hands.fault), [];
      }
      dealt := hands.value;
      var handcards := HandOut(order, hands.value);
      SameKeys(handcards.Keys, userIdToPlayerState.Keys, order);
      if full {
        FullDeckDealt(pile0, deck.pile, deck.discardPile, dealt);
      }
      r := Ok(handcards);
    }

    /** game_start: the hands dealt, a card flipped, and a first player picked at
        random below player_num. A repeated id in the list the game was built from
        leaves dealt hands nobody receives. With a full deck the game opens for 1 to 14
        players: 15 players leave three cards, which may all be Black, so that the flip
        never ends; 16 or more run out of cards; none makes gen_range panic. */
    method GameStart() returns (r: Result<Opening>, ghost dealt: seq<seq<Card>>, ghost drawn: Card)
      requires Valid()
      modifies deck
      ensures r.Ok? ==> 1 <= playerNum && |dealt| == playerNum && forall p :: 0 <= p < playerNum ==> |dealt[p]| == 7
      ensures r.Ok? ==> r.value.handcards.Keys == userIdToPlayerState.Keys
      ensures r.Ok? ==> forall j :: 0 <= j < |order| ==> r.value.handcards[order[j]] == dealt[j]
      ensures r.Ok? ==> deck.Contents() + (Bag(dealt) + multiset{drawn}) == old(deck.Contents())
      ensures r.Ok? ==> drawn.color != Black && r.value.flippedCard == Shown(drawn)
      ensures r.Ok? ==> 0 <= r.value.firstPlayer < playerNum
      ensures playerNum == 0 ==> r.Fault?
      ensures 7 * playerNum > |old(deck.Contents())| ==> r == Fault(EmptyPile)
      ensures old(deck.discardPile) == [] && IsFullDeck(multiset(old(deck.pile))) ==>
        && (1 <= playerNum <= 14 ==> r.Ok?)
        && (playerNum == 15 ==> r.Ok? || r == Fault(NeverTerminates))
        && (playerNum >= 16 ==> r == Fault(EmptyPile))
        && (playerNum == 0 ==> r == Fault(EmptyRange))
    {
      ghost var whole := deck.Contents();
      var handcards;
      handcards, dealt := DealHands();
      if handcards.Fault? {
        return Fault(handcards.fault), dealt, Card(Red, Zero);
      }
      ghost var held := deck.Contents();
      var flipped;
      flipped, drawn := FlipCard();
      if flipped.Fault? {
        return Fault(flipped.fault), dealt, drawn;
      }
      Handed(held, deck.Contents(), drawn, Bag(dealt), whole);
      if playerNum == 0 {
        return Fault(EmptyRange), dealt, drawn;
      }
      var first :| 0 <= first < playerNum;
      r := Ok(Opening(handcards.value, flipped.value, first));
    }
  }

  class GlobalState {
    var roomIdToGameState: map<int, GameState>
    var curRoomId: int
    var curUserId: int
    /** The registry and every object of every room. */
    ghost var Repr: set<object>

    /** Every room is a valid game and no two rooms share an object. The current room
        and user do not matter. */
    ghost predicate Valid()
      reads this`roomIdToGameState, this`Repr
    {
      && this in Repr
      && (forall r :: r in roomIdToGameState ==>
            && roomIdToGameState[r].Repr() <= Repr
            && this !in roomIdToGameState[r].Repr()
            && roomIdToGameState[r].Valid())
      && (forall r, s :: r in roomIdToGameState && s in roomIdToGameState && r != s ==>
            roomIdToGameState[r].Repr() !! roomIdToGameState[s].Repr())
    }

    /** GlobalState::new: no rooms, no current room or user. */
    constructor ()
      ensures roomIdToGameState == map[] && curRoomId == -1 && curUserId == -1
      ensures Valid() && fresh(Repr)
    {
      roomIdToGameState := map[];
      curRoomId := -1;
      curUserId := -1;
      Repr := {this};
    }

    /** The room `roomId` holds a game GameState::new built for `userIds`: one player
        per listed id, none of whom has played yet. */
    ghost predicate IsNewRoom(roomId: int, userIds: seq<UserId>)
      reads this, Repr
    {
      && roomId in roomIdToGameState
      && var g := roomIdToGameState[roomId];
         && g.Repr() <= Repr
         && g.playerNum == |userIds|
         && (forall u :: u in g.userIdToPlayerState <==> u in userIds)
         && (forall u :: u in g.userIdToPlayerState ==> g.userIdToPlayerState[u].handcardsNum == 7)
    }

    /** The opening of room `roomId` for `userIds`: seven cards for every listed user,
        a flipped card that is neither Black nor a draw card, a first player below the
        number of ids, and every card accounted for except the flipped one and the
        hands dealt for repeated ids. */
    ghost predicate Opened(roomId: int, userIds: seq<UserId>, o: Opening)
      reads this, Repr
    {
      && roomId in roomIdToGameState
      && var g := roomIdToGameState[roomId];
         && g.Repr() <= Repr
         && g.Valid()
         && (forall u :: u in o.handcards <==> u in userIds)
         && (forall u :: u in o.handcards ==> |o.handcards[u]| == 7)
         && o.flippedCard.color != Black
         && o.flippedCard.text != DrawTwo && o.flippedCard.text != DrawFour
         && 0 <= o.firstPlayer < |userIds|
         && g.Accounted() + 7 * (|userIds| - |g.order|) == 107
    }

    /** Insert a valid game, whose objects are new to the registry, under a free room id. */
    method AddRoom(roomId: int, g: GameState)
      requires Valid() && roomId !in roomIdToGameState
      requires g.Valid() && g.Repr() !! Repr
      modifies this`roomIdToGameState, this`Repr
      ensures Valid() && Repr == old(Repr) + g.Repr()
      ensures roomIdToGameState == old(roomIdToGameState)[roomId := g]
    {
      ghost var rooms := roomIdToGameState;
      assert this !in g.Repr();
      roomIdToGameState := roomIdToGameState[roomId := g];
      Repr := Repr + g.Repr();
      forall q | q in roomIdToGameState
        ensures && roomIdToGameState[q].Repr() <= Repr
                && this !in roomIdToGameState[q].Repr()
                && roomIdToGameState[q].Valid()
      {
        if q != roomId {
          assert roomIdToGameState[q] == rooms[q];
        }
      }
      forall q, q' | q in roomIdToGameState && q' in roomIdToGameState && q != q'
        ensures roomIdToGameState[q].Repr() !! roomIdToGameState[q'].Repr()
      {
        if q != roomId && q' != roomId {
          assert roomIdToGameState[q] == rooms[q] && roomIdToGameState[q'] == rooms[q'];
        }
      }
    }

    /** HashMap::remove of a room: the other rooms stay as they are. */
    method RemoveRoom(roomId: int)
      requires Valid()
      modifies this`roomIdToGameState
      ensures Valid() && roomIdToGameState == old(roomIdToGameState) - {roomId}
    {
      roomIdToGameState := roomIdToGameState - {roomId};
    }

    /** new_game: refuses a room id in use; otherwise adds exactly that room with a new
        game and starts it. The room stays even when game_start panics. A list of 1 to
        14 ids always opens a game; an empty list fails in gen_range, and 16 or more ids
        run out of cards. */
    method NewGame(roomId: int, userIds: seq<UserId>, gameSettings: StartGameSettings) returns (r: Result<Opening>)
      requires Valid()
      modifies this`roomIdToGameState, this`Repr
      ensures Valid()
      ensures roomId in old(roomIdToGameState) ==>
        r == Fault(RoomExists) && roomIdToGameState == old(roomIdToGameState) && Repr == old(Repr)
      ensures roomId !in old(roomIdToGameState) ==>
        && roomId in roomIdToGameState
        && roomIdToGameState == old(roomIdToGameState)[roomId := roomIdToGameState[roomId]]
        && (var g := roomIdToGameState[roomId];
            && fresh(g) && fresh(g.deck) && fresh(g.Players())
            && Repr == old(Repr) + g.Repr())
        && IsNewRoom(roomId, userIds)
        && (1 <= |userIds| <= 14 ==> r.Ok?)
        && (|userIds| == 15 ==> r.Ok? || r == Fault(NeverTerminates))
        && (|userIds| >= 16 ==> r == Fault(EmptyPile))
        && (|userIds| == 0 ==> r == Fault(EmptyRange))
      ensures r.Ok? ==> Opened(roomId, userIds, r.value)
    {
      if roomId in roomIdToGameState {
        return Fault(RoomExists);
      }
      var g := GameState.New(userIds, gameSettings);
      AddRoom(roomId, g);
      assert roomIdToGameState[roomId] == g;
      ghost var dealt, drawn;
      r, dealt, drawn := g.GameStart();
      assert forall u :: u in g.userIdToPlayerState ==> g.userIdToPlayerState[u].handcardsNum == 7;
      SumSevens(g.Counts(), g.order);
      assert IsNewRoom(roomId, userIds);
      if r.Ok? {
        BagSize(dealt);
        assert g.Accounted() == 108 - 7 * |userIds| - 1 + 7 * |g.order|;
      }
    }
  }
}
