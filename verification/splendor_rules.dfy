/** The value-level rules the Splendor transitions are specified with: a player's card
    production, point totals, per-type totals of a resource map, and the split of the
    board's nobles into those that visit a player and those that stay. */
module SplendorRules {
  import opened SplendorPb
  import opened SplendorSetup

  /** The colour of each card, in order. */
  ghost function Colours(cards: seq<Development>): seq<int>
  {
    seq(|cards|, i requires 0 <= i < |cards| => cards[i].resourceType)
  }

  /** The production map of PlayerState::get_pub_state: the default map with one added
      to the entry of each owned card's colour. Entry t counts the cards of colour t. */
  function Production(cards: seq<Development>): (m: ResourceMap)
    requires GemColoured(cards)  // indexing panics otherwise
    ensures |m| == GOLD
    ensures forall t :: 0 <= t < GOLD ==> m[t] == ResourceEntry(t, multiset(Colours(cards))[t])
  {
    if cards == [] then DefaultResourceMap()
    else
      var rest := cards[..|cards| - 1];
      var m := Production(rest);
      var t := cards[|cards| - 1].resourceType;
      assert Colours(cards) == Colours(rest) + [t];
      m[t := ResourceEntry(m[t].resourceType, m[t].number + 1)]
  }

  /** Sum of the numbers of the entries of type t in m. */
  function Total(m: ResourceMap, t: int): int
  {
    if m == [] then 0
    else Total(m[..|m| - 1], t) + (if m[|m| - 1].resourceType == t then m[|m| - 1].number else 0)
  }

  /** Points of a list of cards. */
  function DevPoints(cards: seq<Development>): int
  {
    if cards == [] then 0 else DevPoints(cards[..|cards| - 1]) + cards[|cards| - 1].points
  }

  /** Points of a list of nobles. */
  function NoblePoints(nobles: seq<Noble>): int
  {
    if nobles == [] then 0 else NoblePoints(nobles[..|nobles| - 1]) + nobles[|nobles| - 1].points
  }

  lemma {:induction false} NoblePointsAppend(a: seq<Noble>, b: seq<Noble>)
    ensures NoblePoints(a + b) == NoblePoints(a) + NoblePoints(b)
  {
    if b == [] {
      assert a + b == a;
    } else {
      var b' := b[..|b| - 1];
      NoblePointsAppend(a, b');
      assert (a + b)[..|a + b| - 1] == a + b';
    }
  }

  /** A list read back to front. */
  function Reverse(s: seq<Noble>): (r: seq<Noble>)
    ensures |r| == |s|
    ensures forall i :: 0 <= i < |s| ==> r[i] == s[|s| - 1 - i]
  {
    if s == [] then [] else Reverse(s[1..]) + [s[0]]
  }

  lemma {:induction false} NoblePointsReverse(s: seq<Noble>)
    ensures NoblePoints(Reverse(s)) == NoblePoints(s)
  {
    if s != [] {
      NoblePointsReverse(s[1..]);
      NoblePointsAppend(Reverse(s[1..]), [s[0]]);
      NoblePointsAppend([s[0]], s[1..]);
      assert [s[0]] + s[1..] == s;
      assert [s[0]][..0] == [];
    }
  }

  /** Reading x then s backwards ends with x. */
  lemma ReverseCons(x: Noble, s: seq<Noble>)
    ensures Reverse([x] + s) == Reverse(s) + [x]
  {
    assert ([x] + s)[1..] == s;
  }

  /** A map whose entries are all non-negative totals non-negatively per type. */
  lemma {:induction false} TotalNonNegative(m: ResourceMap, t: int)
    requires forall k :: 0 <= k < |m| ==> m[k].number >= 0
    ensures Total(m, t) >= 0
  {
    if m != [] {
      TotalNonNegative(m[..|m| - 1], t);
    }
  }

  /** A map naming only types below `bound` totals zero for any type from `bound` on. */
  lemma {:induction false} TotalOutside(m: ResourceMap, t: int, bound: int)
    requires forall k :: 0 <= k < |m| ==> m[k].resourceType < bound
    requires t >= bound
    ensures Total(m, t) == 0
  {
    if m != [] {
      TotalOutside(m[..|m| - 1], t, bound);
    }
  }

  /** A noble visits a player whose production covers every entry of its requirement.
      A requirement naming a type outside the production counts as not visiting,
      where indexing the production would panic; a well-formed noble (WellFormedNoble)
      names only gems, so that case does not arise. */
  ghost predicate Visits(n: Noble, production: ResourceMap)
  {
    forall k :: 0 <= k < |n.capital| ==>
      && 0 <= n.capital[k].resourceType < |production|
      && n.capital[k].number <= production[n.capital[k].resourceType].number
  }

  /** The nobles that do not visit, in their original order. */
  ghost function Survivors(nobles: seq<Noble>, production: ResourceMap): (r: seq<Noble>)
    ensures |r| <= |nobles|
  {
    if nobles == [] then []
    else (if Visits(nobles[0], production) then [] else [nobles[0]]) + Survivors(nobles[1..], production)
  }

  /** The nobles that visit, in their original order. */
  ghost function Acquired(nobles: seq<Noble>, production: ResourceMap): (r: seq<Noble>)
    ensures |r| <= |nobles|
  {
    if nobles == [] then []
    else (if Visits(nobles[0], production) then [nobles[0]] else []) + Acquired(nobles[1..], production)
  }

  /** The nobles that stay are exactly the board nobles that do not visit; those
      acquired are exactly the board nobles that visit. */
  lemma {:induction false} SplitMembers(nobles: seq<Noble>, production: ResourceMap)
    ensures forall n :: n in Survivors(nobles, production) ==> n in nobles && !Visits(n, production)
    ensures forall n :: n in Acquired(nobles, production) ==> n in nobles && Visits(n, production)
    ensures forall n :: n in nobles ==> (n in Survivors(nobles, production) <==> !Visits(n, production))
    ensures forall n :: n in nobles ==> (n in Acquired(nobles, production) <==> Visits(n, production))
  {
    if nobles != [] {
      SplitMembers(nobles[1..], production);
    }
  }

  /** Every noble either stays or visits: none is lost and none is duplicated. */
  lemma {:induction false} NoblesPartition(nobles: seq<Noble>, production: ResourceMap)
    ensures multiset(Survivors(nobles, production)) + multiset(Acquired(nobles, production)) == multiset(nobles)
    ensures |Survivors(nobles, production)| + |Acquired(nobles, production)| == |nobles|
  {
    if nobles != [] {
      NoblesPartition(nobles[1..], production);
      assert nobles == [nobles[0]] + nobles[1..];
    }
  }

  lemma {:induction false} SurvivorsAppend(a: seq<Noble>, b: seq<Noble>, production: ResourceMap)
    ensures Survivors(a + b, production) == Survivors(a, production) + Survivors(b, production)
  {
    if a == [] {
      assert a + b == b;
    } else {
      var c := a + b;
      assert c[0] == a[0] && c[1..] == a[1..] + b;
      SurvivorsAppend(a[1..], b, production);
      calc {
        Survivors(c, production);
        (if Visits(a[0], production) then [] else [a[0]]) + Survivors(a[1..] + b, production);
        (if Visits(a[0], production) then [] else [a[0]]) + (Survivors(a[1..], production) + Survivors(b, production));
      }
    }
  }

  lemma {:induction false} AcquiredAppend(a: seq<Noble>, b: seq<Noble>, production: ResourceMap)
    ensures Acquired(a + b, production) == Acquired(a, production) + Acquired(b, production)
  {
    if a == [] {
      assert a + b == b;
    } else {
      var c := a + b;
      assert c[0] == a[0] && c[1..] == a[1..] + b;
      AcquiredAppend(a[1..], b, production);
      calc {
        Acquired(c, production);
        (if Visits(a[0], production) then [a[0]] else []) + Acquired(a[1..] + b, production);
        (if Visits(a[0], production) then [a[0]] else []) + (Acquired(a[1..], production) + Acquired(b, production));
      }
    }
  }

  /** A stretch of nobles none of which visits stays whole. */
  lemma {:induction false} NoneVisit(s: seq<Noble>, production: ResourceMap)
    requires forall k :: 0 <= k < |s| ==> !Visits(s[k], production)
    ensures Survivors(s, production) == s && Acquired(s, production) == []
  {
    if s != [] {
      NoneVisit(s[1..], production);
      assert s == [s[0]] + s[1..];
    }
  }

  /** A visiting noble at j followed by non-visiting ones up to h: from j on, the
      survivors are that stretch followed by the survivors from h on, and the acquired
      nobles are the one at j followed by those acquired from h on. */
  lemma NobleStep(nobles: seq<Noble>, j: int, h: int, production: ResourceMap)
    requires 0 <= j < h <= |nobles| && Visits(nobles[j], production)
    requires forall m :: j < m < h ==> !Visits(nobles[m], production)
    ensures Survivors(nobles[j..], production) == nobles[j + 1..h] + Survivors(nobles[h..], production)
    ensures Acquired(nobles[j..], production) == [nobles[j]] + Acquired(nobles[h..], production)
  {
    var mid := nobles[j + 1..h];
    var tail := nobles[h..];
    assert nobles[j..] == [nobles[j]] + (mid + tail);
    assert forall k :: 0 <= k < |mid| ==> !Visits(mid[k], production) by {
      forall k | 0 <= k < |mid| ensures !Visits(mid[k], production) {
        assert mid[k] == nobles[j + 1 + k];
      }
    }
    NoneVisit(mid, production);
    SurvivorsStep(nobles[j], mid, tail, production);
    AcquiredStep(nobles[j], mid, tail, production);
  }

  /** A visiting noble followed by a non-visiting stretch leaves just that stretch. */
  lemma SurvivorsStep(x: Noble, mid: seq<Noble>, tail: seq<Noble>, production: ResourceMap)
    requires Visits(x, production) && Survivors(mid, production) == mid
    ensures Survivors([x] + (mid + tail), production) == mid + Survivors(tail, production)
  {
    var c := [x] + (mid + tail);
    assert c[0] == x && c[1..] == mid + tail;
    assert Survivors(c, production) == [] + Survivors(mid + tail, production);
    SurvivorsAppend(mid, tail, production);
  }

  /** A visiting noble followed by a stretch that acquires nothing is acquired alone. */
  lemma AcquiredStep(x: Noble, mid: seq<Noble>, tail: seq<Noble>, production: ResourceMap)
    requires Visits(x, production) && Acquired(mid, production) == []
    ensures Acquired([x] + (mid + tail), production) == [x] + Acquired(tail, production)
  {
    var c := [x] + (mid + tail);
    assert c[0] == x && c[1..] == mid + tail;
    assert Acquired(c, production) == [x] + Acquired(mid + tail, production);
    AcquiredAppend(mid, tail, production);
  }
}
