/** The UNO deck (uno/src/card.rs): a draw pile and a discard pile, both double-ended
    queues, and the operations the engine performs on them. The front of a queue is the
    first element of its sequence. */
module UnoCard {
  import opened Provider
  import opened UnoPb

  /** The colours init walks, in its order. */
  const NON_WILD_COLORS: seq<CardColor> := [Red, Yellow, Green, Blue]

  /** The texts init gives each colour, in its order. */
  const NON_WILD_TEXTS: seq<CardText> :=
    [Zero, One, Two, Three, Four, Five, Six, Seven, Eight, Nine, Skip, Reverse, DrawTwo]

  /** How many Wild and how many DrawFour cards init adds. */
  const WILD_CARD_NUM := 4

  /** How many copies of a card a full deck holds: four Black Wild and four Black
      DrawFour, and for each other colour one Zero and two of every other number and
      action text; nothing else. */
  function Copies(c: Card): nat
  {
    if c.color == Black then
      if c.text == Wild || c.text == DrawFour then WILD_CARD_NUM else 0
    else if c.text == Wild || c.text == DrawFour || c.text == Empty then 0
    else if c.text == Zero then 1
    else 2
  }

  /** The cards init pushes to the front for one text of one colour, as they then lie
      from the front: a second copy for every text but Zero. */
  function Pushed(color: CardColor, t: CardText): seq<Card>
  {
    if t != Zero then [Card(color, t), Card(color, t)] else [Card(color, t)]
  }

  /** The cards init pushes for one colour and the given texts, as they then lie from
      the front: the last text pushed comes first. */
  function ColourRun(color: CardColor, texts: seq<CardText>): seq<Card>
  {
    if texts == [] then []
    else Pushed(color, texts[|texts| - 1]) + ColourRun(color, texts[..|texts| - 1])
  }

  /** The cards init pushes for the given colours, as they then lie from the front. */
  function ColourRuns(colors: seq<CardColor>, texts: seq<CardText>): seq<Card>
  {
    if colors == [] then []
    else ColourRun(colors[|colors| - 1], texts) + ColourRuns(colors[..|colors| - 1], texts)
  }

  /** The black cards of n rounds of init's last loop, as they then lie from the front. */
  function WildRun(n: nat): seq<Card>
  {
    if n == 0 then [] else [Card(Black, DrawFour), Card(Black, Wild)] + WildRun(n - 1)
  }

  /** The pile init builds before it shuffles. */
  function InitialPile(): seq<Card>
  {
    WildRun(WILD_CARD_NUM) + ColourRuns(NON_WILD_COLORS, NON_WILD_TEXTS)
  }

  /** The cards of a list of hands, together. */
  function Bag(hands: seq<seq<Card>>): multiset<Card>
  {
    if hands == [] then multiset{} else Bag(hands[..|hands| - 1]) + multiset(hands[|hands| - 1])
  }

  /** Card k of every hand, player by player: the k-th dealing round. */
  ghost function Round(hands: seq<seq<Card>>, k: nat): seq<Card>
    requires forall p :: 0 <= p < |hands| ==> k < |hands[p]|
  {
    seq(|hands|, p requires 0 <= p < |hands| => hands[p][k])
  }

  /** The first m dealing rounds, in the order their cards were drawn. */
  ghost function Rounds(hands: seq<seq<Card>>, m: nat): seq<Card>
    requires forall p :: 0 <= p < |hands| ==> m <= |hands[p]|
  {
    if m == 0 then [] else Rounds(hands, m - 1) + Round(hands, m - 1)
  }

  // ---------------------------------------------------------------------------
  // The full deck

  /** The cards one push step adds for a text. */
  lemma PushedCount(color: CardColor, t: CardText, c: Card)
    ensures multiset(Pushed(color, t))[c] == if c != Card(color, t) then 0 else if t == Zero then 1 else 2
    ensures |Pushed(color, t)| == if t == Zero then 1 else 2
  {
  }

  lemma {:induction false} ColourRunCount(color: CardColor, texts: seq<CardText>, c: Card)
    requires forall i, j :: 0 <= i < j < |texts| ==> texts[i] != texts[j]
    ensures multiset(ColourRun(color, texts))[c] ==
      if c.color == color && c.text in texts then (if c.text == Zero then 1 else 2) else 0
    ensures |ColourRun(color, texts)| == 2 * |texts| - (if Zero in texts then 1 else 0)
  {
    if texts != [] {
      var rest := texts[..|texts| - 1];
      var t := texts[|texts| - 1];
      assert texts == rest + [t];
      assert t !in rest by {
        forall i | 0 <= i < |rest|
          ensures rest[i] != t
        {
          assert rest[i] == texts[i];
        }
      }
      ColourRunCount(color, rest, c);
      PushedCount(color, t, c);
      assert multiset(ColourRun(color, texts)) == multiset(Pushed(color, t)) + multiset(ColourRun(color, rest));
    }
  }

  lemma {:induction false} ColourRunsCount(colors: seq<CardColor>, texts: seq<CardText>, c: Card)
    requires forall i, j :: 0 <= i < j < |colors| ==> colors[i] != colors[j]
    ensures multiset(ColourRuns(colors, texts))[c] ==
      if c.color in colors then multiset(ColourRun(c.color, texts))[c] else 0
  {
    if colors != [] {
      var rest := colors[..|colors| - 1];
      var last := colors[|colors| - 1];
      assert colors == rest + [last];
      assert last !in rest by {
        forall i | 0 <= i < |rest|
          ensures rest[i] != last
        {
          assert rest[i] == colors[i];
        }
      }
      assert forall i, j :: 0 <= i < j < |rest| ==> rest[i] != rest[j] by {
        forall i, j | 0 <= i < j < |rest|
          ensures rest[i] != rest[j]
        {
          assert rest[i] == colors[i] && rest[j] == colors[j];
        }
      }
      ColourRunsCount(rest, texts, c);
      if c.color != last {
        ColourRunOther(last, texts, c);
      }
      assert multiset(ColourRuns(colors, texts)) == multiset(ColourRun(last, texts)) + multiset(ColourRuns(rest, texts));
    }
  }

  lemma {:induction false} ColourRunsLength(colors: seq<CardColor>, texts: seq<CardText>)
    requires |ColourRun(Red, texts)| == 25
    ensures |ColourRuns(colors, texts)| == 25 * |colors|
  {
    if colors != [] {
      ColourRunsLength(colors[..|colors| - 1], texts);
      ColourRunLength(colors[|colors| - 1], Red, texts);
    }
  }

  lemma {:induction false} ColourRunOther(color: CardColor, texts: seq<CardText>, c: Card)
    requires c.color != color
    ensures multiset(ColourRun(color, texts))[c] == 0
  {
    if texts != [] {
      ColourRunOther(color, texts[..|texts| - 1], c);
      PushedCount(color, texts[|texts| - 1], c);
    }
  }

  lemma {:induction false} ColourRunLength(color: CardColor, other: CardColor, texts: seq<CardText>)
    ensures |ColourRun(color, texts)| == |ColourRun(other, texts)|
  {
    if texts != [] {
      ColourRunLength(color, other, texts[..|texts| - 1]);
    }
  }

  lemma {:induction false} WildRunCount(n: nat, c: Card)
    ensures multiset(WildRun(n))[c] == if c == Card(Black, DrawFour) || c == Card(Black, Wild) then n else 0
    ensures |WildRun(n)| == 2 * n
  {
    if n > 0 {
      WildRunCount(n - 1, c);
    }
  }

  /** init's list of colours names the four non-black colours, once each. */
  lemma NonWildColors()
    ensures forall i, j :: 0 <= i < j < |NON_WILD_COLORS| ==> NON_WILD_COLORS[i] != NON_WILD_COLORS[j]
    ensures forall k :: k in NON_WILD_COLORS <==> k != Black
    ensures |NON_WILD_COLORS| == 4
  {
  }

  /** init's list of texts names the thirteen numbered and action texts, once each. */
  lemma NonWildTexts()
    ensures forall i, j :: 0 <= i < j < |NON_WILD_TEXTS| ==> NON_WILD_TEXTS[i] != NON_WILD_TEXTS[j]
    ensures forall t :: t in NON_WILD_TEXTS <==> t != Wild && t != DrawFour && t != Empty
    ensures |NON_WILD_TEXTS| == 13
  {
  }

  /** init builds 108 cards. */
  lemma InitialPileLength()
    ensures |InitialPile()| == 108
  {
    NonWildColors();
    NonWildTexts();
    var c0 := Card(Red, Zero);
    WildRunCount(WILD_CARD_NUM, c0);
    ColourRunCount(Red, NON_WILD_TEXTS, c0);
    ColourRunsLength(NON_WILD_COLORS, NON_WILD_TEXTS);
  }

  /** init builds a full deck: every card in the number Copies says. */
  lemma InitialPileCount(c: Card)
    ensures multiset(InitialPile())[c] == Copies(c)
  {
    NonWildColors();
    NonWildTexts();
    WildRunCount(WILD_CARD_NUM, c);
    ColourRunsCount(NON_WILD_COLORS, NON_WILD_TEXTS, c);
    ColourRunCount(c.color, NON_WILD_TEXTS, c);
    assert multiset(InitialPile())[c] == multiset(WildRun(WILD_CARD_NUM))[c] + multiset(ColourRuns(NON_WILD_COLORS, NON_WILD_TEXTS))[c];
  }

  /** A full deck: 108 cards, each as often as Copies says. */
  ghost predicate IsFullDeck(m: multiset<Card>)
  {
    |m| == 108 && forall c :: m[c] == Copies(c)
  }

  /** init builds a full deck. */
  lemma InitialPileFull()
    ensures IsFullDeck(multiset(InitialPile()))
  {
    InitialPileLength();
    forall c
      ensures multiset(InitialPile())[c] == Copies(c)
    {
      InitialPileCount(c);
    }
  }

  /** One more text pushed by init's inner loop. */
  lemma ColourRunStep(color: CardColor, texts: seq<CardText>, j: int)
    requires 0 <= j < |texts|
    ensures ColourRun(color, texts[..j + 1]) == Pushed(color, texts[j]) + ColourRun(color, texts[..j])
  {
    assert texts[..j + 1][..j] == texts[..j];
  }

  /** The cards of one text pushed to the front over a run already pushed. */
  lemma PushedFront(color: CardColor, t: CardText, run: seq<Card>, below: seq<Card>)
    ensures t != Zero ==> [Card(color, t)] + ([Card(color, t)] + (run + below)) == (Pushed(color, t) + run) + below
    ensures t == Zero ==> [Card(color, t)] + (run + below) == (Pushed(color, t) + run) + below
  {
  }

  /** A Wild then a DrawFour pushed to the front: one more round of init's last loop. */
  lemma WildFront(k: nat, below: seq<Card>)
    ensures [Card(Black, DrawFour)] + ([Card(Black, Wild)] + (WildRun(k) + below)) == WildRun(k + 1) + below
  {
  }

  /** One more colour pushed by init's outer loop. */
  lemma ColourRunsStep(colors: seq<CardColor>, texts: seq<CardText>, i: int)
    requires 0 <= i < |colors|
    ensures ColourRuns(colors[..i + 1], texts) == ColourRun(colors[i], texts) + ColourRuns(colors[..i], texts)
  {
    assert colors[..i + 1][..i] == colors[..i];
  }

  /** The cards of the hands after one more card joins hand p. */
  lemma {:induction false} BagAdd(hands: seq<seq<Card>>, p: int, c: Card)
    requires 0 <= p < |hands|
    ensures Bag(hands[p := hands[p] + [c]]) == Bag(hands) + multiset{c}
  {
    var last := |hands| - 1;
    var hands' := hands[p := hands[p] + [c]];
    if p == last {
      assert hands'[..last] == hands[..last];
    } else {
      BagAdd(hands[..last], p, c);
      assert hands'[..last] == hands[..last][p := hands[p] + [c]];
    }
  }

  /** Hands without cards hold no cards. */
  lemma {:induction false} BagEmpty(hands: seq<seq<Card>>)
    requires forall p :: 0 <= p < |hands| ==> hands[p] == []
    ensures Bag(hands) == multiset{}
  {
    if hands != [] {
      BagEmpty(hands[..|hands| - 1]);
    }
  }

  /** The first p hands of `hands'` are those of `hands` with one more card, the rest
      are as in `hands`, and every hand of `hands` holds `round` cards. */
  ghost predicate DealtUpTo(hands: seq<seq<Card>>, hands': seq<seq<Card>>, p: int, round: nat)
  {
    && 0 <= p <= |hands| == |hands'|
    && (forall q :: 0 <= q < |hands| ==> |hands[q]| == round)
    && (forall q :: 0 <= q < p ==> |hands'[q]| == round + 1 && hands'[q][..round] == hands[q])
    && (forall q :: p <= q < |hands| ==> hands'[q] == hands[q])
  }

  /** Dealing card c to hand p extends the round dealt so far by c. */
  lemma DealStep(hands: seq<seq<Card>>, hands': seq<seq<Card>>, p: int, round: nat, c: Card)
    requires DealtUpTo(hands, hands', p, round) && p < |hands|
    ensures DealtUpTo(hands, hands'[p := hands'[p] + [c]], p + 1, round)
    ensures Round(hands'[p := hands'[p] + [c]][..p + 1], round) == Round(hands'[..p], round) + [c]
  {
    var next := hands'[p := hands'[p] + [c]];
    assert next[p][..round] == hands[p];
  }

  /** After a full round, the earlier rounds read as before and the new round follows
      them. */
  lemma RoundDealt(hands: seq<seq<Card>>, hands': seq<seq<Card>>, round: nat)
    requires DealtUpTo(hands, hands', |hands|, round)
    ensures forall p :: 0 <= p < |hands'| ==> |hands'[p]| == round + 1
    ensures Rounds(hands', round + 1) == Rounds(hands, round) + Round(hands', round)
  {
    forall p | 0 <= p < |hands|
      ensures hands'[p][..round] == hands[p][..round]
    {
      assert hands[p][..round] == hands[p];
    }
    RoundsKept(hands, hands', round);
  }

  /** A card drawn from the deck and handed to a player keeps the total. */
  lemma Handed(held: multiset<Card>, held': multiset<Card>, c: Card, given: multiset<Card>, total: multiset<Card>)
    requires held + given == total && held' + multiset{c} == held
    ensures held' + (given + multiset{c}) == total
  {
  }

  /** Before a round, that round's cards remain to be dealt on top of the later ones. */
  lemma RoundsLeft(round: nat, n: nat)
    requires round < 7
    ensures (7 - round) * n == (7 - (round + 1)) * n + n && (7 - (round + 1)) * n >= 0
  {
  }

  /** Cards taken from the front of a pile join the end of those taken before. */
  lemma Regroup(taken: seq<Card>, more: seq<Card>, rest: seq<Card>)
    ensures taken + (more + rest) == (taken + more) + rest
  {
  }

  /** Earlier rounds only read the cards a new round leaves in place. */
  lemma {:induction false} RoundsKept(hands: seq<seq<Card>>, hands': seq<seq<Card>>, m: nat)
    requires |hands'| == |hands|
    requires forall p :: 0 <= p < |hands| ==> m <= |hands[p]| && m <= |hands'[p]| && hands'[p][..m] == hands[p][..m]
    ensures Rounds(hands', m) == Rounds(hands, m)
  {
    if m > 0 {
      RoundsKept(hands, hands', m - 1);
      forall p | 0 <= p < |hands|
        ensures hands'[p][m - 1] == hands[p][m - 1]
      {
        assert hands'[p][..m][m - 1] == hands[p][..m][m - 1];
      }
      assert Round(hands', m - 1) == Round(hands, m - 1);
    }
  }

  class Deck {
    /** The draw pile, front first. */
    var pile: seq<Card>
    /** The discard pile, front first: the card played last comes first. */
    var discardPile: seq<Card>

    /** Every card of the deck, on either pile. */
    function Contents(): multiset<Card>
      reads this
    {
      multiset(pile) + multiset(discardPile)
    }

    /** Deck::new: an initialised deck. */
    constructor ()
      ensures discardPile == [] && multiset(pile) == multiset(InitialPile())
    {
      pile := [];
      discardPile := [];
      new;
      Init();
    }

    /** init: both piles emptied, then, for each colour, one Zero and two of every other
        text pushed to the front, then four rounds of a Wild and a DrawFour, then the
        pile shuffled. By InitialPileLength and InitialPileCount, the pile then holds
        the 108 cards of a full deck. */
    method Init()
      modifies this
      ensures discardPile == [] && multiset(pile) == multiset(InitialPile())
    {
      pile := [];
      discardPile := [];
      for i := 0 to |NON_WILD_COLORS|
        invariant pile == ColourRuns(NON_WILD_COLORS[..i], NON_WILD_TEXTS) && discardPile == []
      {
        PushColour(NON_WILD_COLORS[i], NON_WILD_TEXTS);
        ColourRunsStep(NON_WILD_COLORS, NON_WILD_TEXTS, i);
      }
      assert NON_WILD_COLORS[..|NON_WILD_COLORS|] == NON_WILD_COLORS;
      for k := 0 to WILD_CARD_NUM
        invariant pile == WildRun(k) + ColourRuns(NON_WILD_COLORS, NON_WILD_TEXTS) && discardPile == []
      {
        WildFront(k, ColourRuns(NON_WILD_COLORS, NON_WILD_TEXTS));
        pile := [Card(Black, Wild)] + pile;
        pile := [Card(Black, DrawFour)] + pile;
      }
      Shuffle();
    }

    /** The inner loop of init: for one colour, each text pushed to the front of the
        pile, a second time unless it is Zero. */
    method PushColour(color: CardColor, texts: seq<CardText>)
      modifies this
      ensures pile == ColourRun(color, texts) + old(pile) && discardPile == old(discardPile)
    {
      ghost var below := pile;
      for j := 0 to |texts|
        invariant pile == ColourRun(color, texts[..j]) + below
        invariant discardPile == old(discardPile)
      {
        var text := texts[j];
        PushedFront(color, text, ColourRun(color, texts[..j]), below);
        ColourRunStep(color, texts, j);
        pile := [Card(color, text)] + pile;
        if text != Zero {
          pile := [Card(color, text)] + pile;
        }
      }
      assert texts[..|texts|] == texts;
    }

    /** shuffle of the draw pile: its cards in some order. */
    method Shuffle()
      modifies this
      ensures multiset(pile) == multiset(old(pile)) && discardPile == old(discardPile)
    {
      var shuffled :| multiset(shuffled) == multiset(pile);
      pile := shuffled;
    }

    /** draw: the front of the pile. An empty pile is first swapped with the discard
        pile and shuffled; with both piles empty, pop_front().unwrap() panics. */
    method Draw() returns (r: Result<Card>)
      modifies this
      ensures r.Ok? <==> old(pile) != [] || old(discardPile) != []
      ensures r.Fault? ==> r.fault == EmptyPile && pile == old(pile) && discardPile == old(discardPile)
      ensures r.Ok? ==> Contents() + multiset{r.value} == old(Contents())
      ensures old(pile) != [] ==> r == Ok(old(pile)[0]) && pile == old(pile)[1..] && discardPile == old(discardPile)
      ensures old(pile) == [] && r.Ok? ==> discardPile == [] && multiset(pile) + multiset{r.value} == multiset(old(discardPile))
    {
      if pile == [] {
        pile, discardPile := discardPile, pile;
        Shuffle();
      }
      if pile == [] {
        return Fault(EmptyPile);
      }
      r := Ok(pile[0]);
      assert pile == [pile[0]] + pile[1..];
      pile := pile[1..];
    }

    /** draw_num: `num` cards, each drawn in turn. A negative count is cast to a huge
        capacity, which panics; running out of cards panics in draw. The cards come
        from the front of the pile; once the pile is used up, the rest come from the
        shuffled discard pile, which is left empty. */
    method DrawNum(num: int) returns (r: Result<seq<Card>>)
      modifies this
      ensures r.Ok? <==> 0 <= num <= |old(Contents())|
      ensures num < 0 ==> r == Fault(CapacityOverflow)
      ensures r.Fault? ==> pile == old(pile) && discardPile == old(discardPile)
      ensures r.Ok? ==> |r.value| == num && Contents() + multiset(r.value) == old(Contents())
      ensures r.Ok? && num <= |old(pile)| ==>
        r.value == old(pile)[..num] && pile == old(pile)[num..] && discardPile == old(discardPile)
      ensures r.Ok? && num > |old(pile)| ==>
        && r.value[..|old(pile)|] == old(pile) && discardPile == []
        && multiset(r.value[|old(pile)|..]) + multiset(pile) == multiset(old(discardPile))
    {
      if num < 0 {
        return Fault(CapacityOverflow);
      }
      if num > |pile| + |discardPile| {
        return Fault(EmptyPile);
      }
      var cards := [];
      for i := 0 to num
        invariant |cards| == i && |Contents()| + i == |old(Contents())|
        invariant Contents() + multiset(cards) == old(Contents())
        invariant DrawnSoFar(cards, old(pile), old(discardPile), pile, discardPile)
      {
        ghost var held := Contents();
        ghost var pileB, discardB := pile, discardPile;
        var c := Draw();
        assert c.Ok?;
        Handed(held, Contents(), c.value, multiset(cards), old(Contents()));
        assert multiset(cards + [c.value]) == multiset(cards) + multiset{c.value};
        DrawnStep(cards, c.value, old(pile), old(discardPile), pileB, discardB, pile, discardPile);
        cards := cards + [c.value];
      }
      return Ok(cards);
    }

    /** Where draw_num stands after drawing `cards` from a deck that started as
        `pile0`/`discard0` and is now `pile`/`discard`: while the old pile lasts, the
        cards are its front and the rest of it is still the pile; after that, the old
        pile came first, the discard pile is empty, and the other cards drawn and the
        pile make up the old discard pile. */
    static ghost predicate DrawnSoFar(cards: seq<Card>, pile0: seq<Card>, discard0: seq<Card>,
                                      pile: seq<Card>, discard: seq<Card>)
    {
      && (|cards| <= |pile0| ==>
            cards == pile0[..|cards|] && pile == pile0[|cards|..] && discard == discard0)
      && (|cards| > |pile0| ==>
            && cards[..|pile0|] == pile0 && discard == []
            && multiset(cards[|pile0|..]) + multiset(pile) == multiset(discard0))
    }

    /** One more draw, as Draw performs it, keeps DrawnSoFar. */
    static lemma DrawnStep(cards: seq<Card>, c: Card, pile0: seq<Card>, discard0: seq<Card>,
                           pile: seq<Card>, discard: seq<Card>, pile': seq<Card>, discard': seq<Card>)
      requires DrawnSoFar(cards, pile0, discard0, pile, discard)
      requires pile != [] ==> c == pile[0] && pile' == pile[1..] && discard' == discard
      requires pile == [] ==> discard' == [] && multiset(pile') + multiset{c} == multiset(discard)
      ensures DrawnSoFar(cards + [c], pile0, discard0, pile', discard')
    {
      var n := |pile0|;
      if |cards| < n {
        assert pile0[..|cards| + 1] == pile0[..|cards|] + [pile0[|cards|]];
      } else if |cards| == n {
        assert (cards + [c])[..n] == cards;
        assert (cards + [c])[n..] == [c];
      } else {
        assert (cards + [c])[..n] == cards[..n];
        assert (cards + [c])[n..] == cards[n..] + [c];
        assert pile == [pile[0]] + pile[1..];
        assert multiset(pile) == multiset{pile[0]} + multiset(pile[1..]);
      }
    }

    /** deal_init_handcards: seven rounds, each dealing one card to every player in
        turn. Running out of cards panics in draw. When the pile holds enough cards,
        the rounds read in order are exactly the cards taken from its front. */
    method DealInitHandcards(playerNum: nat) returns (r: Result<seq<seq<Card>>>)
      modifies this
      ensures r.Ok? <==> 7 * playerNum <= |old(Contents())|
      ensures r.Fault? ==> r.fault == EmptyPile && pile == old(pile) && discardPile == old(discardPile)
      ensures r.Ok? ==> |r.value| == playerNum && forall p :: 0 <= p < playerNum ==> |r.value[p]| == 7
      ensures r.Ok? ==> Contents() + Bag(r.value) == old(Contents())
      ensures r.Ok? && 7 * playerNum <= |old(pile)| ==>
        old(pile) == Rounds(r.value, 7) + pile && discardPile == old(discardPile)
    {
      if 7 * playerNum > |pile| + |discardPile| {
        return Fault(EmptyPile);
      }
      ghost var fromPile := 7 * playerNum <= |pile|;
      ghost var total, pile0 := Contents(), pile;
      var hands: seq<seq<Card>> := seq(playerNum, p => []);
      BagEmpty(hands);
      for round := 0 to 7
        invariant Dealing(hands, round, playerNum, total, fromPile, pile0, old(discardPile))
      {
        hands := DealNext(hands, round, playerNum, total, fromPile, pile0, old(discardPile));
      }
      return Ok(hands);
    }

    /** Where deal_init_handcards stands after `round` rounds: every one of playerNum
        hands holds `round` cards, which left the deck; enough cards remain for the
        other rounds; and, when the pile held all the cards needed, the rounds read in
        order are the cards taken from its front. */
    ghost predicate Dealing(hands: seq<seq<Card>>, round: nat, playerNum: nat, total: multiset<Card>,
                            fromPile: bool, pile0: seq<Card>, discard0: seq<Card>)
      reads this
    {
      && |hands| == playerNum && (forall p :: 0 <= p < playerNum ==> |hands[p]| == round)
      && Contents() + Bag(hands) == total
      && |Contents()| >= (7 - round) * playerNum
      && (fromPile ==>
            && |pile| >= (7 - round) * playerNum
            && pile0 == Rounds(hands, round) + pile && discardPile == discard0)
    }

    /** One pass of deal_init_handcards' round loop. */
    method DealNext(hands: seq<seq<Card>>, round: nat, ghost playerNum: nat, ghost total: multiset<Card>,
                    ghost fromPile: bool, ghost pile0: seq<Card>, ghost discard0: seq<Card>)
      returns (hands': seq<seq<Card>>)
      requires round < 7 && Dealing(hands, round, playerNum, total, fromPile, pile0, discard0)
      modifies this
      ensures Dealing(hands', round + 1, playerNum, total, fromPile, pile0, discard0)
    {
      RoundsLeft(round, playerNum);
      hands' := DealRound(hands, round, fromPile);
      RoundDealt(hands, hands', round);
      if fromPile {
        Regroup(Rounds(hands, round), Round(hands', round), pile);
      }
    }

    /** One round of deal_init_handcards: a card drawn for every player in turn. */
    method DealRound(hands: seq<seq<Card>>, round: nat, ghost fromPile: bool) returns (hands': seq<seq<Card>>)
      requires forall p :: 0 <= p < |hands| ==> |hands[p]| == round
      requires |Contents()| >= |hands| && (fromPile ==> |pile| >= |hands|)
      modifies this
      ensures DealtUpTo(hands, hands', |hands|, round)
      ensures Contents() + Bag(hands') == old(Contents()) + Bag(hands)
      ensures |Contents()| == |old(Contents())| - |hands|
      ensures fromPile ==>
        old(pile) == Round(hands', round) + pile && discardPile == old(discardPile)
    {
      hands' := hands;
      ghost var taken: seq<Card> := [];
      assert hands'[..0] == [];
      for p := 0 to |hands|
        invariant Passing(hands, hands', p, round, taken, old(Contents()) + Bag(hands), |old(Contents())|,
                          fromPile, old(pile), old(discardPile))
      {
        hands', taken := DealTo(hands, hands', p, round, taken, old(Contents()) + Bag(hands), |old(Contents())|,
                                fromPile, old(pile), old(discardPile));
      }
      assert hands'[..|hands|] == hands';
    }

    /** Where a round stands once the players below p have their card: those cards,
        read in turn, are `taken`; they left the deck; and, when the pile held all the
        cards needed, they came from its front. */
    ghost predicate Passing(hands: seq<seq<Card>>, hands': seq<seq<Card>>, p: int, round: nat,
                            taken: seq<Card>, total: multiset<Card>, size0: int,
                            fromPile: bool, pile0: seq<Card>, discard0: seq<Card>)
      reads this
    {
      && DealtUpTo(hands, hands', p, round)
      && Contents() + Bag(hands') == total
      && |Contents()| == size0 - p && |Contents()| >= |hands| - p
      && taken == Round(hands'[..p], round)
      && (fromPile ==> pile0 == taken + pile && discardPile == discard0 && |pile| >= |hands| - p)
    }

    /** One pass of a round: player p's card is drawn and handed over. */
    method DealTo(hands: seq<seq<Card>>, hands': seq<seq<Card>>, p: int, round: nat, ghost taken: seq<Card>,
                  ghost total: multiset<Card>, ghost size0: int,
                  ghost fromPile: bool, ghost pile0: seq<Card>, ghost discard0: seq<Card>)
      returns (hands'': seq<seq<Card>>, ghost taken': seq<Card>)
      requires p < |hands| && Passing(hands, hands', p, round, taken, total, size0, fromPile, pile0, discard0)
      modifies this
      ensures Passing(hands, hands'', p + 1, round, taken', total, size0, fromPile, pile0, discard0)
    {
      ghost var rest, held := pile, Contents();
      var c := Draw();
      assert c.Ok?;
      BagAdd(hands', p, c.value);
      Handed(held, Contents(), c.value, Bag(hands'), total);
      DealStep(hands, hands', p, round, c.value);
      hands'' := hands'[p := hands'[p] + [c.value]];
      if fromPile {
        assert rest != [];
        assert rest == [c.value] + pile;
        Regroup(taken, [c.value], pile);
      }
      taken' := taken + [c.value];
    }

    /** put_to_bottom: the card joins the back of the pile. */
    method PutToBottom(card: Card)
      modifies this
      ensures pile == old(pile) + [card] && discardPile == old(discardPile)
      ensures Contents() == old(Contents()) + multiset{card}
    {
      pile := pile + [card];
    }

    /** discard: the card joins the front of the discard pile. */
    method Discard(card: Card)
      modifies this
      ensures discardPile == [card] + old(discardPile) && pile == old(pile)
      ensures Contents() == old(Contents()) + multiset{card}
    {
      discardPile := [card] + discardPile;
    }
  }
}
