/** The duel rank table and `rating2rank`. */
module Ranks {
  import opened Wrappers

  /** One band of the rank table; a rating r lies in it when low <= r < high. */
  datatype Rank = Rank(low: int, high: int, title: string, abbr: string,
                       colorGraph: string, colorEmbed: int)

  const MinRating: int := -1_000_000_000
  const MaxRating: int := 1_000_000_000

  /** The bands in scan order. Newbie and Pupil overlap on [1200, 1300). */
  const DuelRanks: seq<Rank> := [
    Rank(MinRating, 1300, "Newbie", "N", "#CCCCCC", 0x808080),
    Rank(1200, 1400, "Pupil", "P", "#77FF77", 0x008000),
    Rank(1400, 1600, "Specialist", "S", "#77DDBB", 0x03a89e),
    Rank(1600, 1900, "Expert", "E", "#AAAAFF", 0x0000ff),
    Rank(1900, 2100, "Candidate Master", "CM", "#FF88FF", 0xaa00aa),
    Rank(2100, 2300, "Master", "M", "#FFCC88", 0xff8c00),
    Rank(2300, 2400, "International Master", "IM", "#FFBB55", 0xf57500),
    Rank(2400, 2600, "Grandmaster", "GM", "#FF7777", 0xff3030),
    Rank(2600, 3000, "International Grandmaster", "IGM", "#FF3333", 0xff0000),
    Rank(3000, MaxRating, "Legendary Grandmaster", "LGM", "#AA0000", 0xcc0000)
  ]

  predicate InBand(rank: Rank, r: int) {
    rank.low <= r < rank.high
  }

  /** Index of the first band of `ranks` that contains r, if any. */
  function FirstBand(ranks: seq<Rank>, r: int): (k: Option<nat>)
    ensures k.Some? ==> k.value < |ranks| && InBand(ranks[k.value], r)
    ensures k.Some? ==> forall i :: 0 <= i < k.value ==> !InBand(ranks[i], r)
    ensures k.None? <==> forall i :: 0 <= i < |ranks| ==> !InBand(ranks[i], r)
  {
    if |ranks| == 0 then None
    else if InBand(ranks[0], r) then Some(0)
    else
      match FirstBand(ranks[1..], r)
      case None => None
      case Some(k) => Some(k + 1)
  }

  /** `rating2rank`: the first band of the table containing the rating; Python's
      implicit `None` when the scan finds none. */
  function Rating2Rank(r: int): (rank: Option<Rank>)
    ensures rank.None? <==> forall i :: 0 <= i < |DuelRanks| ==> !InBand(DuelRanks[i], r)
    ensures rank.Some? ==> exists k :: 0 <= k < |DuelRanks| && rank.value == DuelRanks[k]
                                      && InBand(DuelRanks[k], r)
                                      && forall i :: 0 <= i < k ==> !InBand(DuelRanks[i], r)
  {
    match FirstBand(DuelRanks, r)
    case None => None
    case Some(k) => Some(DuelRanks[k])
  }

  /** Reference definition of the table by its thresholds, with first-match order
      resolving the Newbie/Pupil overlap in favour of Newbie. */
  function ThresholdIndex(r: int): nat
  {
    if r < 1300 then 0
    else if r < 1400 then 1
    else if r < 1600 then 2
    else if r < 1900 then 3
    else if r < 2100 then 4
    else if r < 2300 then 5
    else if r < 2400 then 6
    else if r < 2600 then 7
    else if r < 3000 then 8
    else 9
  }

  /** The scan agrees with the threshold table on every rating, and finds nothing
      outside [MinRating, MaxRating). */
  lemma Rating2RankByThresholds(r: int)
    ensures MinRating <= r < MaxRating ==> Rating2Rank(r) == Some(DuelRanks[ThresholdIndex(r)])
    ensures !(MinRating <= r < MaxRating) ==> Rating2Rank(r) == None
  {
  }

  /** `rating2rank` is defined exactly on [-10^9, 10^9). */
  lemma Rating2RankDomain(r: int)
    ensures Rating2Rank(r).Some? <==> MinRating <= r < MaxRating
  {
    Rating2RankByThresholds(r);
  }

  /** Ratings 1200..1299 lie in both the Newbie and the Pupil band, and map to Newbie. */
  lemma OverlapGoesToNewbie(r: int)
    requires 1200 <= r < 1300
    ensures InBand(DuelRanks[0], r) && InBand(DuelRanks[1], r)
    ensures Rating2Rank(r) == Some(DuelRanks[0]) && Rating2Rank(r).value.title == "Newbie"
  {
  }
}
