/** The free helpers of the Splendor engine's state module: the default resource map,
    random draws of gem types, and the construction of nobles and development cards
    from number templates. Randomness is a parameter (a shuffled range) or a `:|`
    choice; every property holds for every choice. */
module SplendorSetup {
  import opened Provider
  import opened SplendorPb

  /** Price templates of the three tiers. The last number of a template is the card's
      points, the others are price quantities. */
  const LEVEL1_TEMPLATES: seq<seq<int>> := [[1, 1, 1, 1, 0], [1, 1, 2, 0], [2, 2, 0]]
  const LEVEL2_TEMPLATES: seq<seq<int>> :=
    [[2, 2, 2, 1], [1, 4, 1], [2, 3, 1], [5, 2], [2, 4, 2], [3, 3, 1, 2], [2, 2, 2, 2, 2], [3, 2, 2, 2]]
  const LEVEL3_TEMPLATES: seq<seq<int>> :=
    [[6, 3], [2, 5, 3], [2, 3, 4, 3], [3, 3, 3, 3, 3],
     [7, 4], [2, 6, 4], [3, 3, 5, 4], [4, 4, 4, 4, 4],
     [8, 5], [2, 7, 5], [4, 4, 6, 5], [4, 5, 5, 5, 5]]

  /** A card the engine can handle: its colour indexes a player's five-entry map, and
      each price entry names a gem and a non-negative quantity. */
  ghost predicate WellFormedDev(d: Development)
  {
    && 0 <= d.resourceType < GOLD
    && forall k :: 0 <= k < |d.price| ==> 0 <= d.price[k].resourceType < GOLD && d.price[k].number >= 0
  }

  /** Every card's colour is a gem, so it indexes a five-entry map. */
  ghost predicate GemColoured(cards: seq<Development>)
  {
    forall k :: 0 <= k < |cards| ==> 0 <= cards[k].resourceType < GOLD
  }

  ghost predicate AllWellFormed(cards: seq<Development>)
  {
    forall k :: 0 <= k < |cards| ==> WellFormedDev(cards[k])
  }

  /** A noble whose requirement names only gems. */
  ghost predicate WellFormedNoble(n: Noble)
  {
    forall k :: 0 <= k < |n.capital| ==> 0 <= n.capital[k].resourceType < GOLD
  }

  ghost predicate AllWellFormedNobles(nobles: seq<Noble>)
  {
    forall k :: 0 <= k < |nobles| ==> WellFormedNoble(nobles[k])
  }

  /** get_default_resource_map: one zero entry per gem, in type order, and no entry for Gold. */
  function DefaultResourceMap(): (m: ResourceMap)
    ensures |m| == GOLD
    ensures forall t :: 0 <= t < |m| ==> m[t] == ResourceEntry(t, 0)
  {
    [ResourceEntry(AGATE, 0), ResourceEntry(EMERALD, 0), ResourceEntry(DIAMOND, 0),
     ResourceEntry(RUBY, 0), ResourceEntry(SAPPHIRE, 0)]
  }

  /** `nums` is the half-open range min..max after a shuffle: each value once. */
  predicate IsShuffledRange(nums: seq<int>, min: int, max: int)
  {
    && min <= max
    && |nums| == max - min
    && (forall i :: 0 <= i < |nums| ==> min <= nums[i] < max)
    && (forall i, j :: 0 <= i < j < |nums| ==> nums[i] != nums[j])
  }

  /** get_multi_rand_nums(num, min, max) with the shuffle as the parameter `shuffled`.
      `split_off(num)` keeps what comes AFTER the first `num` values, so the result has
      (max - min) - num values, not num. */
  function GetMultiRandNums(num: int, min: int, max: int, shuffled: seq<int>): (r: seq<int>)
    requires IsShuffledRange(shuffled, min, max)
    requires 0 <= num <= max - min  // split_off panics past the end
    ensures |r| == (max - min) - num
    ensures forall i :: 0 <= i < |r| ==> min <= r[i] < max
    ensures forall i, j :: 0 <= i < j < |r| ==> r[i] != r[j]
  {
    shuffled[num..]
  }

  /** Drawing from Agate..Sapphire (four gems) yields as many types as asked for only when
      two are asked for, so the length checks of GetARandNoble and GetARandDev pass only
      for two-number templates. */
  lemma DrawMatchesOnlyPairs(num: int, shuffled: seq<int>)
    requires IsShuffledRange(shuffled, AGATE, SAPPHIRE) && 0 <= num <= SAPPHIRE - AGATE
    ensures |GetMultiRandNums(num, AGATE, SAPPHIRE, shuffled)| == num <==> num == 2
  {
  }

  /** get_a_rand_noble: entry k pairs the k-th drawn type with the k-th number; 3 points. */
  function GetARandNoble(rands: seq<int>, numbers: seq<int>): (n: Noble)
    requires |rands| == |numbers|  // assert_eq! on the lengths
    ensures |n.capital| == |numbers| && n.points == 3
    ensures forall k :: 0 <= k < |numbers| ==> n.capital[k] == ResourceEntry(rands[k], numbers[k])
  {
    Noble(seq(|numbers|, k requires 0 <= k < |numbers| => ResourceEntry(rands[k], numbers[k])), 3)
  }

  /** get_a_rand_dev: the last drawn type is the card's colour and the last number its
      points; the other types and numbers pair up into the price. */
  function GetARandDev(rands: seq<int>, numbers: seq<int>): (d: Development)
    requires |rands| == |numbers|  // assert_eq! on the lengths
    requires |numbers| >= 1        // numbers.len() - 1 underflows otherwise
    ensures |d.price| == |numbers| - 1
    ensures forall k :: 0 <= k < |numbers| - 1 ==> d.price[k] == ResourceEntry(rands[k], numbers[k])
    ensures d.resourceType == rands[|rands| - 1] && d.points == numbers[|numbers| - 1]
  {
    var n := |numbers| - 1;
    Development(seq(n, k requires 0 <= k < n => ResourceEntry(rands[k], numbers[k])), rands[n], numbers[n])
  }

  /** The only cards get_rand_devs can produce: one price entry and a colour, two distinct
      gems below Sapphire, with price quantity and points taken from a two-number template. */
  ghost predicate IsPairCard(d: Development, templates: seq<seq<int>>)
  {
    && |d.price| == 1
    && AGATE <= d.price[0].resourceType < SAPPHIRE
    && AGATE <= d.resourceType < SAPPHIRE
    && d.price[0].resourceType != d.resourceType
    && [d.price[0].number, d.points] in templates
  }

  ghost predicate HasPair(templates: seq<seq<int>>)
  {
    exists i :: 0 <= i < |templates| && |templates[i]| == 2
  }

  ghost predicate OnlyPairs(templates: seq<seq<int>>)
  {
    forall i :: 0 <= i < |templates| ==> |templates[i]| == 2
  }

  /** get_rand_devs(templates, num): `num` cards, each from a template picked at random.
      A template of any length other than two makes the draw fail, so the result is
      built exactly when every template picked has two numbers. */
  method GetRandDevs(templates: seq<seq<int>>, num: nat) returns (r: Result<seq<Development>>)
    ensures r.Ok? ==> |r.value| == num
    ensures r.Ok? ==> forall k :: 0 <= k < |r.value| ==> IsPairCard(r.value[k], templates)
    ensures OnlyPairs(templates) && (num == 0 || |templates| > 0) ==> r.Ok?
    ensures num > 0 && !HasPair(templates) ==> r.Fault?
  {
    var devCards: seq<Development> := [];
    for i := 0 to num
      invariant |devCards| == i
      invariant forall k :: 0 <= k < i ==> IsPairCard(devCards[k], templates)
      invariant i > 0 ==> HasPair(templates)
    {
      if |templates| == 0 {
        return Fault(EmptyRange);
      }
      var index :| 0 <= index < |templates|;
      var numbers := templates[index];
      if |numbers| > 5 {
        return Fault(AssertionFailed);
      }
      assert IsShuffledRange([0, 1, 2, 3], AGATE, SAPPHIRE);
      var shuffled :| IsShuffledRange(shuffled, AGATE, SAPPHIRE);
      if |numbers| > SAPPHIRE - AGATE {
        return Fault(IndexOutOfRange);  // split_off past the end of the four gems
      }
      var rands := GetMultiRandNums(|numbers|, AGATE, SAPPHIRE, shuffled);
      if |rands| != |numbers| {
        return Fault(AssertionFailed);
      }
      assert numbers == [numbers[0], numbers[1]];
      devCards := devCards + [GetARandDev(rands, numbers)];
    }
    return Ok(devCards);
  }

  /** Level one has no two-number template, so its cards can never be drawn. */
  lemma LevelOneHasNoPair()
    ensures !HasPair(LEVEL1_TEMPLATES)
  {
  }

  /** Levels two and three each have a two-number template, but not only those. */
  lemma LevelsTwoAndThreeMix()
    ensures HasPair(LEVEL2_TEMPLATES) && !OnlyPairs(LEVEL2_TEMPLATES)
    ensures HasPair(LEVEL3_TEMPLATES) && !OnlyPairs(LEVEL3_TEMPLATES)
  {
    assert |LEVEL2_TEMPLATES[3]| == 2 && |LEVEL2_TEMPLATES[0]| != 2;
    assert |LEVEL3_TEMPLATES[0]| == 2 && |LEVEL3_TEMPLATES[1]| != 2;
  }

  /** Every card built from non-negative templates is one the engine can handle. */
  lemma PairCardWellFormed(d: Development, templates: seq<seq<int>>)
    requires IsPairCard(d, templates)
    requires forall i, j :: 0 <= i < |templates| && 0 <= j < |templates[i]| ==> templates[i][j] >= 0
    ensures WellFormedDev(d)
  {
    var i :| 0 <= i < |templates| && templates[i] == [d.price[0].number, d.points];
    assert templates[i][0] == d.price[0].number;
  }
}
