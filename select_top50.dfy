/**
 * The scorer/ranker: every beach gets five integer sub-scores, the beaches are sorted by total
 * score (highest first, stable), the first fifty are kept, and those fifty features are marked
 * with their 1-based rank as `researchPriority` and status `partial`.
 *
 * The haversine distance to the nearest major city is an opaque input `nearest(latitude, longitude)`.
 */
module SelectTop50 {
  import opened Wrappers
  import opened Text
  import opened Seqs
  import opened StableSort
  import opened Beach

  /** The size of the priority set. */
  const TOP_N: nat := 50

  // ------------------------------------------------------------- sub-scores

  /** `scorePopulationProximity`: bands of 10, 25, 50 and 100 km, strict, first match wins. */
  function PopulationScore(minDistance: real): (r: int)
    ensures r in {0, 5, 10, 15, 20}
    ensures minDistance < 10.0 ==> r == 20
    ensures 10.0 <= minDistance < 25.0 ==> r == 15
    ensures 25.0 <= minDistance < 50.0 ==> r == 10
    ensures 50.0 <= minDistance < 100.0 ==> r == 5
    ensures 100.0 <= minDistance ==> r == 0
  {
    if minDistance < 10.0 then 20
    else if minDistance < 25.0 then 15
    else if minDistance < 50.0 then 10
    else if minDistance < 100.0 then 5
    else 0
  }

  /** Being closer never lowers the population score. */
  lemma PopulationScoreMonotone(near: real, far: real)
    requires near <= far
    ensures PopulationScore(far) <= PopulationScore(near)
  {
  }

  /** `(facilities?.length || 0) * 5` */
  function FacilitiesScore(facilities: Option<seq<string>>): (r: int)
    ensures r >= 0 && r % 5 == 0
    ensures facilities.None? ==> r == 0
    ensures facilities.Some? ==> r / 5 == |facilities.value|
  {
    var count := if facilities.Some? then |facilities.value| else 0;
    count * 5
  }

  /** 10 for wheelchair access, 5 for dogs, 5 for parking; nothing without an accessibility block. */
  function AccessibilityScore(accessibility: Option<Accessibility>): (r: int)
    ensures 0 <= r <= 20 && r % 5 == 0
    ensures accessibility.Some? && accessibility.value.wheelchairAccessible ==> r >= 10
    ensures r == 0 <==> accessibility.None? || accessibility == Some(Accessibility(false, false, false))
    ensures r == 20 <==> accessibility == Some(Accessibility(true, true, true))
    ensures accessibility.Some? ==>
      var a := accessibility.value;
      r == (if a.wheelchairAccessible then 10 else 0) + (if a.dogFriendly then 5 else 0)
        + (if a.parkingAvailable then 5 else 0)
  {
    var wheelchair := if accessibility.Some? && accessibility.value.wheelchairAccessible then 10 else 0;
    var dog := if accessibility.Some? && accessibility.value.dogFriendly then 5 else 0;
    var parking := if accessibility.Some? && accessibility.value.parkingAvailable then 5 else 0;
    wheelchair + dog + parking
  }

  /** Keywords whose presence in the lowercased name marks a well-known beach. */
  const LANDMARK_KEYWORDS: seq<string> := [
    "state park", "state beach", "pier", "boardwalk", "main beach", "downtown", "municipal",
    "city beach", "golden gate", "la jolla", "crystal cove", "malibu", "venice", "santa monica",
    "huntington"]

  /** 15 when the lowercased name contains some landmark keyword. */
  function LandmarkScore(name: string): (r: int)
    ensures r == 0 || r == 15
    ensures r == 15 <==> exists k :: k in LANDMARK_KEYWORDS && Contains(Lower(name), k)
  {
    if ContainsAny(Lower(name), LANDMARK_KEYWORDS) then 15 else 0
  }

  /** The landmark test ignores (ASCII) case. */
  lemma LandmarkCaseInsensitive(name: string)
    ensures LandmarkScore(Lower(name)) == LandmarkScore(name)
  {
    LowerIdempotent(name);
  }

  /** A lowercase name containing "pier" scores the landmark bonus. */
  lemma PierIsLandmark(prefix: string, suffix: string)
    requires IsLowerCase(prefix) && IsLowerCase(suffix)
    ensures LandmarkScore(prefix + "pier" + suffix) == 15
  {
    var name := prefix + "pier" + suffix;
    LowerOfLowerCase(name);
    ContainsInConcat(prefix, "pier", suffix);
    assert LANDMARK_KEYWORDS[2] == "pier";
  }

  /** Underrepresented counties score 10 below 10 beaches, 5 below 50, else 0. */
  function CountyScore(countyCount: int): (r: int)
    ensures r in {0, 5, 10}
    ensures countyCount < 10 ==> r == 10
    ensures 10 <= countyCount < 50 ==> r == 5
    ensures 50 <= countyCount ==> r == 0
  {
    if countyCount < 10 then 10 else if countyCount < 50 then 5 else 0
  }

  /** A county with more beaches never gets a larger bonus. */
  lemma CountyScoreMonotone(fewer: int, more: int)
    requires fewer <= more
    ensures CountyScore(more) <= CountyScore(fewer)
  {
  }

  // ---------------------------------------------------------- whole score

  datatype ScoringDetails = ScoringDetails(
    population: int,
    facilities: int,
    accessibility: int,
    landmarks: int,
    countyRepresentation: int)

  datatype BeachScore = BeachScore(
    id: string,
    name: string,
    county: string,
    region: string,
    score: int,
    scoringDetails: ScoringDetails,
    coordinates: Coordinates)

  function Total(d: ScoringDetails): int {
    d.population + d.facilities + d.accessibility + d.landmarks + d.countyRepresentation
  }

  /** The five sub-scores of a beach whose county holds `countyCount` beaches. */
  function Details(p: Properties, countyCount: int, nearest: (real, real) -> real): ScoringDetails
    requires WellTyped(p)
  {
    var c := p.coordinates.value;
    ScoringDetails(
      PopulationScore(nearest(c.latitude, c.longitude)),
      FacilitiesScore(p.facilities),
      AccessibilityScore(p.accessibility),
      LandmarkScore(p.name.value),
      CountyScore(countyCount))
  }

  /** The record `scoreBeach` returns. */
  function Scored(p: Properties, countyCount: int, nearest: (real, real) -> real): BeachScore
    requires WellTyped(p)
  {
    var d := Details(p, countyCount, nearest);
    BeachScore(p.id.value, p.name.value, p.county.value, p.region.value, Total(d), d, p.coordinates.value)
  }

  /** The total is the sum of the retained breakdown, and lies between 0 and 65 plus the facility points. */
  lemma ScoreBounds(p: Properties, countyCount: int, nearest: (real, real) -> real)
    requires WellTyped(p)
    ensures var b := Scored(p, countyCount, nearest);
      && b.score == b.scoringDetails.population + b.scoringDetails.facilities
           + b.scoringDetails.accessibility + b.scoringDetails.landmarks
           + b.scoringDetails.countyRepresentation
      && 0 <= b.score <= 65 + FacilitiesScore(p.facilities)
  {
  }

  /**
   * A beach within 10 km of a city, with two facilities, wheelchair access and parking but no
   * dogs, "pier" in its name and five beaches in its county scores 20 + 10 + 15 + 15 + 10 = 70.
   */
  lemma ScoringExample(p: Properties, nearest: (real, real) -> real)
    requires WellTyped(p)
    requires nearest(p.coordinates.value.latitude, p.coordinates.value.longitude) < 10.0
    requires p.facilities.Some? && |p.facilities.value| == 2
    requires p.accessibility == Some(Accessibility(false, true, true))
    requires Contains(Lower(p.name.value), "pier")
    ensures Scored(p, 5, nearest).score == 70
  {
    assert LANDMARK_KEYWORDS[2] == "pier";
  }

  /** `countyBeachCounts[county] || 0` */
  function Lookup(counts: map<string, int>, county: string): int {
    if county in counts then counts[county] else 0
  }

  /** `scoreBeach`: adds up the sub-scores one by one, recording each in the breakdown. */
  method ScoreBeach(p: Properties, counts: map<string, int>, nearest: (real, real) -> real)
    returns (b: BeachScore)
    requires WellTyped(p)
    ensures b == Scored(p, Lookup(counts, p.county.value), nearest)
  {
    var score := 0;
    var details := ScoringDetails(0, 0, 0, 0, 0);

    var populationScore := PopulationScore(nearest(p.coordinates.value.latitude, p.coordinates.value.longitude));
    score := score + populationScore;
    details := details.(population := populationScore);
    assert score == populationScore;

    var facilitiesCount := if p.facilities.Some? then |p.facilities.value| else 0;
    var facilitiesScore := facilitiesCount * 5;
    score := score + facilitiesScore;
    details := details.(facilities := facilitiesScore);
    assert facilitiesScore == FacilitiesScore(p.facilities);

    var accessibilityScore := 0;
    if p.accessibility.Some? && p.accessibility.value.wheelchairAccessible { accessibilityScore := accessibilityScore + 10; }
    if p.accessibility.Some? && p.accessibility.value.dogFriendly { accessibilityScore := accessibilityScore + 5; }
    if p.accessibility.Some? && p.accessibility.value.parkingAvailable { accessibilityScore := accessibilityScore + 5; }
    score := score + accessibilityScore;
    details := details.(accessibility := accessibilityScore);
    assert accessibilityScore == AccessibilityScore(p.accessibility);

    var hasLandmark := ContainsAny(Lower(p.name.value), LANDMARK_KEYWORDS);
    var landmarkScore := if hasLandmark then 15 else 0;
    score := score + landmarkScore;
    details := details.(landmarks := landmarkScore);
    assert landmarkScore == LandmarkScore(p.name.value);

    var countyCount := if p.county.value in counts then counts[p.county.value] else 0;
    var countyScore := if countyCount < 10 then 10 else if countyCount < 50 then 5 else 0;
    score := score + countyScore;
    details := details.(countyRepresentation := countyScore);
    assert countyScore == CountyScore(Lookup(counts, p.county.value));
    assert score == Total(details);

    b := BeachScore(p.id.value, p.name.value, p.county.value, p.region.value, score, details, p.coordinates.value);
  }

  // ------------------------------------------------------- county counts

  /** The number of features in `features` whose county is `county`. */
  function CountyCount(features: seq<Feature>, county: string): nat {
    if features == [] then 0
    else
      CountyCount(features[..|features| - 1], county)
      + (if features[|features| - 1].properties.county == Some(county) then 1 else 0)
  }

  lemma {:induction false} CountyCountPositive(features: seq<Feature>, i: int)
    requires 0 <= i < |features| && features[i].properties.county.Some?
    ensures CountyCount(features, features[i].properties.county.value) >= 1
  {
    var n := |features| - 1;
    if i < n {
      assert features[..n][i] == features[i];
      CountyCountPositive(features[..n], i);
    }
  }

  predicate Distinct(keys: seq<string>) {
    forall i, j :: 0 <= i < j < |keys| ==> keys[i] != keys[j]
  }

  /** The sum of `m` over `keys`. */
  function SumAt(keys: seq<string>, m: map<string, int>): int
    requires forall k :: k in keys ==> k in m
  {
    if keys == [] then 0 else SumAt(keys[..|keys| - 1], m) + m[keys[|keys| - 1]]
  }

  lemma {:induction false} SumAtOther(keys: seq<string>, m: map<string, int>, c: string, v: int)
    requires forall k :: k in keys ==> k in m
    requires c !in keys
    ensures SumAt(keys, m[c := v]) == SumAt(keys, m)
  {
    if keys != [] {
      SumAtOther(keys[..|keys| - 1], m, c, v);
    }
  }

  lemma {:induction false} SumAtBump(keys: seq<string>, m: map<string, int>, c: string)
    requires forall k :: k in keys ==> k in m
    requires Distinct(keys) && c in keys
    ensures SumAt(keys, m[c := m[c] + 1]) == SumAt(keys, m) + 1
  {
    var init, last := keys[..|keys| - 1], keys[|keys| - 1];
    assert keys == init + [last];
    if last == c {
      assert c !in init by {
        forall i | 0 <= i < |init| ensures init[i] != c {
          assert init[i] == keys[i];
        }
      }
      SumAtOther(init, m, c, m[c] + 1);
    } else {
      assert c in init;
      SumAtBump(init, m, c);
    }
  }

  /**
   * The county-count reduce: each county maps to the number of its beaches. The ghost `keys`
   * lists the counties in first-seen order; the counts over them sum to the number of features.
   */
  method CountByCounty(features: seq<Feature>) returns (counts: map<string, int>, ghost keys: seq<string>)
    requires forall i :: 0 <= i < |features| ==> features[i].properties.county.Some?
    ensures forall c :: Lookup(counts, c) == CountyCount(features, c)
    ensures forall i :: 0 <= i < |features| ==> Lookup(counts, features[i].properties.county.value) >= 1
    ensures forall c :: c in counts <==> c in keys
    ensures Distinct(keys) && SumAt(keys, counts) == |features|
  {
    counts := map[];
    keys := [];
    for i := 0 to |features|
      invariant forall c :: Lookup(counts, c) == CountyCount(features[..i], c)
      invariant forall c :: c in counts <==> c in keys
      invariant Distinct(keys) && SumAt(keys, counts) == i
    {
      var county := features[i].properties.county.value;
      var previous := if county in counts then counts[county] else 0;
      if county in counts {
        SumAtBump(keys, counts, county);
      } else {
        SumAtOther(keys, counts, county, 1);
        keys := keys + [county];
        assert keys[..|keys| - 1] == keys[..|keys| - 1];
      }
      counts := counts[county := previous + 1];
      assert features[..i + 1][..i] == features[..i];
    }
    assert features[..|features|] == features;
    forall i | 0 <= i < |features|
      ensures Lookup(counts, features[i].properties.county.value) >= 1
    {
      CountyCountPositive(features, i);
    }
  }

  // ---------------------------------------------------------- ranking

  /** `(a, b) => b.score - a.score`: `x` goes first when its score is strictly higher. */
  function ByScore(x: BeachScore, y: BeachScore): bool {
    x.score > y.score
  }

  lemma ByScoreIsStrictWeakOrder()
    ensures StrictWeakOrder(ByScore)
  {
  }

  /** Every feature scored against the county counts of the whole collection. */
  function ScoreAll(features: seq<Feature>, nearest: (real, real) -> real): (r: seq<BeachScore>)
    requires forall i :: 0 <= i < |features| ==> WellTyped(features[i].properties)
    ensures |r| == |features|
    ensures forall i :: 0 <= i < |features| && WellTyped(features[i].properties) ==>
      r[i] == Scored(features[i].properties, CountyCount(features, features[i].properties.county.value), nearest)
  {
    seq(|features|, i requires 0 <= i < |features| && WellTyped(features[i].properties) =>
      Scored(features[i].properties, CountyCount(features, features[i].properties.county.value), nearest))
  }

  /** The scored beaches, highest score first, ties in input order. */
  function Ranking(scored: seq<BeachScore>): seq<BeachScore> {
    SortSpec(scored, ByScore)
  }

  /** `scoredBeaches.slice(0, 50)` after the sort. */
  function Top(scored: seq<BeachScore>): seq<BeachScore> {
    Take(Ranking(scored), TOP_N)
  }

  /** The ranking is a permutation of the scored beaches with non-increasing scores. */
  lemma RankingOrdered(scored: seq<BeachScore>)
    ensures multiset(Ranking(scored)) == multiset(scored)
    ensures forall i, j :: 0 <= i < j < |Ranking(scored)| ==> Ranking(scored)[i].score >= Ranking(scored)[j].score
  {
    SortPermutes(scored, ByScore);
    ByScoreIsStrictWeakOrder();
    SortSorted(scored, ByScore);
  }

  /** Beaches with equal scores keep their input order: there is no tie-break by name. */
  lemma RankingStable(scored: seq<BeachScore>, k: BeachScore)
    ensures Filter(SameRank(ByScore, k), Ranking(scored)) == Filter(SameRank(ByScore, k), scored)
  {
    ByScoreIsStrictWeakOrder();
    SortStable(scored, ByScore, k);
  }

  /** Two beaches rank equal under the comparator exactly when their scores are equal. */
  lemma SameRankIsSameScore(k: BeachScore, b: BeachScore)
    ensures SameRank(ByScore, k)(b) <==> b.score == k.score
  {
    assert SameRank(ByScore, k)(b) == (!ByScore(b, k) && !ByScore(k, b));
  }

  /**
   * The top list has min(50, n) entries, drawn from the scored beaches, and no beach left out
   * scores higher than any beach kept.
   */
  lemma TopSelection(scored: seq<BeachScore>)
    ensures |Top(scored)| == if |scored| < TOP_N then |scored| else TOP_N
    ensures multiset(Top(scored)) <= multiset(scored)
    ensures forall i, j :: 0 <= i < |Top(scored)| <= j < |Ranking(scored)| ==>
      Top(scored)[i].score >= Ranking(scored)[j].score
  {
    RankingOrdered(scored);
    var r := Ranking(scored);
    assert |r| == |multiset(r)| == |multiset(scored)| == |scored|;
    var t := Top(scored);
    assert r == t + r[|t|..];
    assert multiset(r) == multiset(t) + multiset(r[|t|..]);
  }

  /** Ranking an already ranked list changes nothing: the selection is reproducible. */
  lemma RankingIdempotent(scored: seq<BeachScore>)
    ensures Ranking(Ranking(scored)) == Ranking(scored)
  {
    ByScoreIsStrictWeakOrder();
    SortIdempotent(scored, ByScore);
  }

  // ----------------------------------------------------------- write-back

  /** `b.id === feature.properties.id` */
  function SameId(f: Feature): BeachScore -> bool {
    (b: BeachScore) => Some(b.id) == f.properties.id
  }

  /** The feature after the write-back: rank and `partial` status when its id is in `top`. */
  function Prioritized(f: Feature, top: seq<BeachScore>): Feature {
    var index := FindIndex(SameId(f), top);
    if index != -1 then
      f.(properties := f.properties.(researchPriority := Some(index + 1), dataStatus := Some(PARTIAL)))
    else
      f
  }

  /**
   * A feature whose id is nowhere in `top` is unchanged; one whose id first occurs at index `i`
   * gets priority `i + 1` and status `partial`, and nothing else changes.
   */
  lemma PrioritizedContract(f: Feature, top: seq<BeachScore>)
    ensures (forall i :: 0 <= i < |top| ==> Some(top[i].id) != f.properties.id) ==> Prioritized(f, top) == f
    ensures forall i ::
      (0 <= i < |top| && Some(top[i].id) == f.properties.id
       && forall j :: 0 <= j < i ==> Some(top[j].id) != f.properties.id) ==>
      Prioritized(f, top) == f.(properties := f.properties.(researchPriority := Some(i + 1), dataStatus := Some(PARTIAL)))
  {
    forall i | 0 <= i < |top| && Some(top[i].id) == f.properties.id
      && forall j :: 0 <= j < i ==> Some(top[j].id) != f.properties.id
      ensures Prioritized(f, top)
        == f.(properties := f.properties.(researchPriority := Some(i + 1), dataStatus := Some(PARTIAL)))
    {
      PrioritizedAt(f, top, i);
    }
  }

  lemma PrioritizedAt(f: Feature, top: seq<BeachScore>, i: int)
    requires 0 <= i < |top| && Some(top[i].id) == f.properties.id
    requires forall j :: 0 <= j < i ==> Some(top[j].id) != f.properties.id
    ensures Prioritized(f, top)
      == f.(properties := f.properties.(researchPriority := Some(i + 1), dataStatus := Some(PARTIAL)))
  {
    var same := SameId(f);
    assert same(top[i]);
    var k := FindIndex(same, top);
    assert k == i;
  }

  /** With at most fifty entries, a marked feature's priority lies in 1..50 and it enters the priority set. */
  lemma PrioritizedInPrioritySet(f: Feature, top: seq<BeachScore>)
    requires |top| <= TOP_N
    ensures var g := Prioritized(f, top);
      g != f ==>
        && g.properties.researchPriority.Some?
        && 1 <= g.properties.researchPriority.value <= TOP_N
        && IsPriority(g.properties)
        && g.properties.dataStatus == Some(PARTIAL)
  {
  }

  /** `updatedFeatures`: the write-back over all features (in place in the source). */
  method AssignPriorities(features: array<Feature>, top: seq<BeachScore>)
    modifies features
    ensures forall i :: 0 <= i < features.Length ==> features[i] == Prioritized(old(features[i]), top)
  {
    ghost var input := features[..];
    for i := 0 to features.Length
      invariant forall k :: 0 <= k < i ==> features[k] == Prioritized(input[k], top)
      invariant forall k :: i <= k < features.Length ==> features[k] == input[k]
    {
      var feature := features[i];
      assert feature == input[i];
      var index := FindIndex(SameId(feature), top);
      if index != -1 {
        var p := feature.properties;
        features[i] := feature.(properties := p.(researchPriority := Some(index + 1), dataStatus := Some(PARTIAL)));
      }
      assert features[i] == Prioritized(input[i], top);
    }
    assert forall k :: 0 <= k < features.Length ==> old(features[k]) == input[k];
  }

  /**
   * `selectTop50` without the file I/O: count, score, sort in place, keep fifty, write back.
   * Returns the top list that is saved as JSON.
   */
  /** `features.map(...)` with `scoreBeach`, into a new array. */
  method ScoreFeatures(features: array<Feature>, counts: map<string, int>, nearest: (real, real) -> real)
    returns (scored: array<BeachScore>)
    requires forall i :: 0 <= i < features.Length ==> WellTyped(features[i].properties)
    requires forall c :: Lookup(counts, c) == CountyCount(features[..], c)
    ensures fresh(scored)
    ensures scored[..] == ScoreAll(features[..], nearest)
  {
    ghost var input := features[..];
    scored := new BeachScore[features.Length];
    for i := 0 to features.Length
      invariant forall k :: 0 <= k < i ==> scored[k] == ScoreAll(input, nearest)[k]
    {
      var b := ScoreBeach(features[i].properties, counts, nearest);
      scored[i] := b;
    }
  }

  method SelectTop(features: array<Feature>, nearest: (real, real) -> real) returns (top50: seq<BeachScore>)
    requires forall i :: 0 <= i < features.Length ==> WellTyped(features[i].properties)
    modifies features
    ensures top50 == Top(ScoreAll(old(features[..]), nearest))
    ensures forall i :: 0 <= i < features.Length ==> features[i] == Prioritized(old(features[i]), top50)
  {
    var input := features[..];
    var counts, keys := CountByCounty(input);
    var scored := ScoreFeatures(features, counts, nearest);
    SortInPlace(scored, ByScore);
    top50 := Take(scored[..], TOP_N);
    AssignPriorities(features, top50);
  }
}
