/**
 * The transformer: raw access-location records of the open-data feed become canonical
 * `api-only` point features; records without a name or outside California are dropped.
 */
module TransformApiData {
  import opened Wrappers
  import opened Text
  import opened Seqs
  import opened Beach
  import opened GeojsonUtils

  /** One record of the feed (`AccessLocation`); the yes/no columns hold strings such as "Yes". */
  datatype AccessLocation = AccessLocation(
    id: int,
    name: Option<string>,
    latitude: Option<real>,
    longitude: Option<real>,
    county: Option<string>,
    dogFriendly: Option<string>,
    disabledAccess: Option<string>,
    parking: Option<string>,
    restrooms: Option<string>,
    campground: Option<string>,
    fishing: Option<string>,
    boating: Option<string>,
    volleyball: Option<string>,
    bikePath: Option<string>)

  /** JavaScript truthiness of an optional number: present and non-zero. */
  predicate TruthyReal(x: Option<real>) {
    x.Some? && x.value != 0.0
  }

  /**
   * The filter of `transformData`: a name, a latitude and a longitude are required (zero counts
   * as missing), and the point must lie in the California box. Equivalently: all three present
   * and the point inside the inclusive box.
   */
  function IsValidRecord(a: AccessLocation): (ok: bool)
    ensures ok <==>
      && Truthy(a.name) && a.latitude.Some? && a.longitude.Some?
      && InCalifornia(a.latitude.value, a.longitude.value)
  {
    if !Truthy(a.name) || !TruthyReal(a.latitude) || !TruthyReal(a.longitude) then
      false
    else
      var latitude, longitude := a.latitude.value, a.longitude.value;
      !(latitude < 32.0 || latitude > 42.0 || longitude < -125.0 || longitude > -114.0)
  }

  /** `apiBeaches.filter(...)` */
  function ValidRecords(records: seq<AccessLocation>): seq<AccessLocation> {
    Filter(IsValidRecord, records)
  }

  /** The filter keeps exactly the valid records, in their input order. */
  lemma ValidRecordsKept(records: seq<AccessLocation>, more: seq<AccessLocation>)
    ensures forall a :: a in ValidRecords(records) <==> a in records && IsValidRecord(a)
    ensures IsSubsequence(ValidRecords(records), records)
    ensures ValidRecords(records + more) == ValidRecords(records) + ValidRecords(more)
  {
    FilterIsSubsequence(IsValidRecord, records);
    FilterAppend(IsValidRecord, records, more);
  }

  // ----------------------------------------------------------- facilities

  /** The facility columns, in the order `parseFacilities` tests them. */
  datatype FacilityFlag = Parking | Restrooms | Campground | Fishing | Boating | Volleyball | BikePath

  const FACILITY_ORDER: seq<FacilityFlag> :=
    [Parking, Restrooms, Campground, Fishing, Boating, Volleyball, BikePath]

  /** The facility vocabulary, in the same order. */
  const FACILITY_TAGS: seq<string> :=
    ["parking", "restrooms", "camping", "fishing", "boating", "volleyball", "bike path"]

  function Column(a: AccessLocation, f: FacilityFlag): Option<string> {
    match f
    case Parking => a.parking
    case Restrooms => a.restrooms
    case Campground => a.campground
    case Fishing => a.fishing
    case Boating => a.boating
    case Volleyball => a.volleyball
    case BikePath => a.bikePath
  }

  function Tag(f: FacilityFlag): string {
    match f
    case Parking => "parking"
    case Restrooms => "restrooms"
    case Campground => "camping"
    case Fishing => "fishing"
    case Boating => "boating"
    case Volleyball => "volleyball"
    case BikePath => "bike path"
  }

  predicate IsSet(a: AccessLocation, f: FacilityFlag) {
    Column(a, f) == Some("Yes")
  }

  /** The tag of `f` when its column is set, nothing otherwise. */
  function Present(a: AccessLocation, f: FacilityFlag): seq<string> {
    if IsSet(a, f) then [Tag(f)] else []
  }

  /** The tags of the set columns among `flags`, in the order of `flags`. */
  function TagsOf(a: AccessLocation, flags: seq<FacilityFlag>): seq<string> {
    if flags == [] then [] else Present(a, flags[0]) + TagsOf(a, flags[1..])
  }

  lemma AllFlagsListed()
    ensures forall f :: f in FACILITY_ORDER
  {
    forall f ensures f in FACILITY_ORDER {
      match f
      case Parking => assert FACILITY_ORDER[0] == f;
      case Restrooms => assert FACILITY_ORDER[1] == f;
      case Campground => assert FACILITY_ORDER[2] == f;
      case Fishing => assert FACILITY_ORDER[3] == f;
      case Boating => assert FACILITY_ORDER[4] == f;
      case Volleyball => assert FACILITY_ORDER[5] == f;
      case BikePath => assert FACILITY_ORDER[6] == f;
    }
  }

  /** The tags of all of `flags`, in order. */
  function AllTags(flags: seq<FacilityFlag>): seq<string> {
    if flags == [] then [] else [Tag(flags[0])] + AllTags(flags[1..])
  }

  /** The facility list `parseFacilities` builds (possibly empty). */
  function FacilityTags(a: AccessLocation): seq<string> {
    TagsOf(a, FACILITY_ORDER)
  }

  lemma {:induction false} TagsOfMembers(a: AccessLocation, flags: seq<FacilityFlag>)
    ensures forall f :: Tag(f) in TagsOf(a, flags) <==> f in flags && IsSet(a, f)
    ensures TagsOf(a, flags) != [] <==> exists f :: f in flags && IsSet(a, f)
  {
    if flags != [] {
      TagsOfMembers(a, flags[1..]);
      assert TagsOf(a, flags) == Present(a, flags[0]) + TagsOf(a, flags[1..]);
      assert forall f :: f in flags <==> f == flags[0] || f in flags[1..];
    }
  }

  lemma {:induction false} TagsOfOrdered(a: AccessLocation, flags: seq<FacilityFlag>)
    ensures IsSubsequence(TagsOf(a, flags), AllTags(flags))
  {
    if flags != [] {
      TagsOfOrdered(a, flags[1..]);
      var r, all := TagsOf(a, flags), AllTags(flags);
      assert all[0] == Tag(flags[0]) && all[1..] == AllTags(flags[1..]);
      if IsSet(a, flags[0]) {
        assert r[0] == all[0] && r[1..] == TagsOf(a, flags[1..]);
        assert IsSubsequence(r[1..], all[1..]);
      } else {
        assert r == TagsOf(a, flags[1..]);
        assert IsSubsequence(r, all[1..]);
      }
    }
  }

  lemma {:induction false} TagsOfDistinct(a: AccessLocation, flags: seq<FacilityFlag>)
    requires forall i, j :: 0 <= i < j < |flags| ==> flags[i] != flags[j]
    ensures forall i, j :: 0 <= i < j < |TagsOf(a, flags)| ==> TagsOf(a, flags)[i] != TagsOf(a, flags)[j]
  {
    if flags != [] {
      TagsOfDistinct(a, flags[1..]);
      TagsOfMembers(a, flags[1..]);
      var r, rest := TagsOf(a, flags), TagsOf(a, flags[1..]);
      if IsSet(a, flags[0]) {
        assert r == [Tag(flags[0])] + rest;
        assert flags[0] !in flags[1..];
        assert Tag(flags[0]) !in rest;
        forall i, j | 0 <= i < j < |r|
          ensures r[i] != r[j]
        {
          if i > 0 {
            assert r[i] == rest[i - 1] && r[j] == rest[j - 1];
          } else {
            assert r[j] == rest[j - 1];
          }
        }
      } else {
        assert r == rest;
      }
    }
  }

  lemma {:induction false} TagsOfLength(a: AccessLocation, flags: seq<FacilityFlag>)
    ensures |TagsOf(a, flags)| <= |flags|
  {
    if flags != [] {
      TagsOfLength(a, flags[1..]);
    }
  }

  /** `parseFacilities`: a tag is listed iff its column equals "Yes". */
  lemma FacilityTagsMembership(a: AccessLocation)
    ensures forall f :: Tag(f) in FacilityTags(a) <==> IsSet(a, f)
    ensures FacilityTags(a) != [] <==> exists f :: IsSet(a, f)
  {
    AllFlagsListed();
    TagsOfMembers(a, FACILITY_ORDER);
  }

  /** The tags follow the fixed vocabulary order. */
  lemma FacilityTagsOrdered(a: AccessLocation)
    ensures IsSubsequence(FacilityTags(a), FACILITY_TAGS)
  {
    TagsOfOrdered(a, FACILITY_ORDER);
    AllTagsOfOrder();
  }

  lemma AllTagsStep(k: nat)
    requires k < 7
    ensures AllTags(FACILITY_ORDER[k..]) == [Tag(FACILITY_ORDER[k])] + AllTags(FACILITY_ORDER[k + 1..])
  {
    assert FACILITY_ORDER[k..][1..] == FACILITY_ORDER[k + 1..];
  }

  /** Listing the tag of every column in order gives the vocabulary. */
  lemma AllTagsOfOrder()
    ensures AllTags(FACILITY_ORDER) == FACILITY_TAGS
  {
    assert AllTags(FACILITY_ORDER[7..]) == [];
    AllTagsStep(6);
    AllTagsStep(5);
    AllTagsStep(4);
    AllTagsStep(3);
    AllTagsStep(2);
    AllTagsStep(1);
    AllTagsStep(0);
    assert FACILITY_ORDER[0..] == FACILITY_ORDER;
  }

  /** No tag is listed twice, so there are at most seven. */
  lemma FacilityTagsDistinct(a: AccessLocation)
    ensures forall i, j :: 0 <= i < j < |FacilityTags(a)| ==> FacilityTags(a)[i] != FacilityTags(a)[j]
    ensures |FacilityTags(a)| <= 7
  {
    TagsOfDistinct(a, FACILITY_ORDER);
    TagsOfLength(a, FACILITY_ORDER);
  }

  /** Scanning one more column appends that column's tag, if any. */
  lemma {:induction false} TagsOfSnoc(a: AccessLocation, flags: seq<FacilityFlag>, f: FacilityFlag)
    ensures TagsOf(a, flags + [f]) == TagsOf(a, flags) + Present(a, f)
  {
    if flags == [] {
      assert TagsOf(a, [f]) == Present(a, f) + TagsOf(a, []);
    } else {
      assert (flags + [f])[1..] == flags[1..] + [f];
      TagsOfSnoc(a, flags[1..], f);
    }
  }

  /** One step of `parseFacilities`: after column `k` the list holds the tags of columns `0..k`. */
  lemma FacilityStep(a: AccessLocation, k: nat)
    requires k < 7
    ensures TagsOf(a, FACILITY_ORDER[..k + 1]) == TagsOf(a, FACILITY_ORDER[..k]) + Present(a, FACILITY_ORDER[k])
  {
    assert FACILITY_ORDER[..k + 1] == FACILITY_ORDER[..k] + [FACILITY_ORDER[k]];
    TagsOfSnoc(a, FACILITY_ORDER[..k], FACILITY_ORDER[k]);
  }

  /** One line of `parseFacilities`: push the tag of `f`, the `k`-th column, when it reads "Yes". */
  method PushIfSet(list: seq<string>, a: AccessLocation, k: nat, f: FacilityFlag) returns (pushed: seq<string>)
    requires k < 7 && FACILITY_ORDER[k] == f
    requires list == TagsOf(a, FACILITY_ORDER[..k])
    ensures pushed == TagsOf(a, FACILITY_ORDER[..k + 1])
  {
    FacilityStep(a, k);
    if Column(a, f) == Some("Yes") {
      pushed := list + [Tag(f)];
    } else {
      pushed := list;
    }
  }

  /** `parseFacilities`: pushes the tags one by one, and returns undefined rather than an empty list. */
  method ParseFacilities(a: AccessLocation) returns (facilities: Option<seq<string>>)
    ensures facilities == if FacilityTags(a) == [] then None else Some(FacilityTags(a))
    ensures facilities.None? <==> forall f :: !IsSet(a, f)
  {
    var list: seq<string> := [];
    assert FACILITY_ORDER[..0] == [];
    list := PushIfSet(list, a, 0, Parking);
    list := PushIfSet(list, a, 1, Restrooms);
    list := PushIfSet(list, a, 2, Campground);
    list := PushIfSet(list, a, 3, Fishing);
    list := PushIfSet(list, a, 4, Boating);
    list := PushIfSet(list, a, 5, Volleyball);
    list := PushIfSet(list, a, 6, BikePath);
    assert FACILITY_ORDER[..7] == FACILITY_ORDER;
    facilities := if |list| > 0 then Some(list) else None;
    FacilityTagsMembership(a);
  }

  // ------------------------------------------------------ transformation

  /** Any of the three accessibility columns is present, even when it is not "Yes". */
  predicate HasAccessibilityData(a: AccessLocation) {
    a.dogFriendly.Some? || a.disabledAccess.Some? || a.parking.Some?
  }

  /** `COUNTY || 'Unknown'` */
  function CountyOf(a: AccessLocation): string {
    if Truthy(a.county) then a.county.value else "Unknown"
  }

  /** The fields `transformApiBeach` reads without a fallback are present. */
  predicate Transformable(a: AccessLocation) {
    a.name.Some? && a.latitude.Some? && a.longitude.Some?
  }

  /** The feature `transformApiBeach` produces, stamped with the run's timestamp `now`. */
  function ApiFeature(a: AccessLocation, now: string): Feature
    requires Transformable(a)
  {
    var county := CountyOf(a);
    var tags := FacilityTags(a);
    var properties := NO_PROPERTIES.(
      id := Some(Slug(a.name.value)),
      name := a.name,
      county := Some(county),
      region := Some(DetermineRegion(county).Name()),
      coordinates := Some(Coordinates(a.latitude.value, a.longitude.value)),
      dataStatus := Some(API_ONLY),
      lastUpdated := Some(now),
      apiSourceId := Some(IntToString(a.id)),
      facilities := if tags == [] then None else Some(tags),
      accessibility :=
        if HasAccessibilityData(a) then
          Some(Accessibility(a.dogFriendly == Some("Yes"), a.disabledAccess == Some("Yes"), a.parking == Some("Yes")))
        else None);
    Feature(Some(Point(Position(a.longitude.value, a.latitude.value))), properties)
  }

  /**
   * What the transformer promises of each feature: a slug id, the name, the county (or
   * 'Unknown'), its region, status api-only, the source id as a string, a point at
   * [longitude, latitude], a non-empty facility list only when some column is "Yes", and an
   * accessibility block exactly when some accessibility column exists.
   */
  lemma ApiFeatureContract(a: AccessLocation, now: string)
    requires Transformable(a)
    ensures var f := ApiFeature(a, now); var p := f.properties;
      && WellTyped(p)
      && p.id == Some(Slug(a.name.value)) && IsSlug(p.id.value)
      && p.name == a.name
      && p.county == Some(if Truthy(a.county) then a.county.value else "Unknown")
      && p.region.value in {"north", "central", "south"}
      && p.region == Some(DetermineRegion(p.county.value).Name())
      && p.dataStatus == Some(API_ONLY) && p.lastUpdated == Some(now)
      && p.apiSourceId == Some(IntToString(a.id))
      && f.geometry == Some(Point(Position(a.longitude.value, a.latitude.value)))
      && p.coordinates == Some(Coordinates(a.latitude.value, a.longitude.value))
      && (p.facilities.Some? <==> exists g :: IsSet(a, g))
      && (p.facilities.Some? ==> p.facilities.value != [] && forall g :: Tag(g) in p.facilities.value <==> IsSet(a, g))
      && (p.accessibility.Some? <==> HasAccessibilityData(a))
      && (p.accessibility.Some? ==>
            && p.accessibility.value.dogFriendly == (a.dogFriendly == Some("Yes"))
            && p.accessibility.value.wheelchairAccessible == (a.disabledAccess == Some("Yes"))
            && p.accessibility.value.parkingAvailable == (a.parking == Some("Yes")))
      && p.researchPriority.None? && p.managementType.None?
  {
    SlugShape(a.name.value);
    FacilityTagsMembership(a);
  }

  /** Every feature built from a kept record is api-only and lies in the California box. */
  lemma ApiFeatureInCalifornia(a: AccessLocation, now: string)
    requires IsValidRecord(a)
    ensures var p := ApiFeature(a, now).properties;
      && p.dataStatus == Some(API_ONLY)
      && p.coordinates.Some?
      && InCalifornia(p.coordinates.value.latitude, p.coordinates.value.longitude)
  {
  }

  /** `transformApiBeach`: builds the required properties, then attaches the optional blocks. */
  method TransformApiBeach(a: AccessLocation, now: string) returns (feature: Feature)
    requires Transformable(a)
    ensures feature == ApiFeature(a, now)
  {
    var county := if Truthy(a.county) then a.county.value else "Unknown";
    var facilities := ParseFacilities(a);
    var properties := NO_PROPERTIES.(
      id := Some(Slug(a.name.value)),
      name := a.name,
      county := Some(county),
      region := Some(DetermineRegion(county).Name()),
      coordinates := Some(Coordinates(a.latitude.value, a.longitude.value)),
      dataStatus := Some(API_ONLY),
      lastUpdated := Some(now),
      apiSourceId := Some(IntToString(a.id)));

    if facilities.Some? && |facilities.value| > 0 {
      properties := properties.(facilities := facilities);
    }

    var hasAccessibilityData :=
      a.dogFriendly.Some? || a.disabledAccess.Some? || a.parking.Some?;
    if hasAccessibilityData {
      properties := properties.(accessibility := Some(Accessibility(
        a.dogFriendly == Some("Yes"),
        a.disabledAccess == Some("Yes"),
        a.parking == Some("Yes"))));
    }

    feature := Feature(Some(Point(Position(a.longitude.value, a.latitude.value))), properties);
  }

  /** Appending the next transformed record extends the list of transformed records. */
  lemma ApiFeatureStep(features: seq<Feature>, feature: Feature, kept: seq<AccessLocation>, now: string)
    requires |features| < |kept|
    requires forall k :: 0 <= k < |kept| ==> Transformable(kept[k])
    requires forall k :: 0 <= k < |features| ==> features[k] == ApiFeature(kept[k], now)
    requires feature == ApiFeature(kept[|features|], now)
    ensures forall k :: 0 <= k <= |features| ==> (features + [feature])[k] == ApiFeature(kept[k], now)
  {
  }

  /**
   * `transformData` without the file I/O: filter the records, then transform each kept one.
   * One feature per kept record, in input order.
   */
  method TransformData(records: seq<AccessLocation>, now: string) returns (features: seq<Feature>)
    ensures |features| == |ValidRecords(records)|
    ensures forall i :: 0 <= i < |features| ==> features[i] == ApiFeature(ValidRecords(records)[i], now)
    ensures forall i :: 0 <= i < |features| ==>
      && features[i].properties.dataStatus == Some(API_ONLY)
      && features[i].properties.coordinates.Some?
      && InCalifornia(features[i].properties.coordinates.value.latitude,
                      features[i].properties.coordinates.value.longitude)
  {
    var validBeaches := Filter(IsValidRecord, records);
    forall k | 0 <= k < |validBeaches|
      ensures Transformable(validBeaches[k])
    {
      assert IsValidRecord(validBeaches[k]);
    }
    features := [];
    for i := 0 to |validBeaches|
      invariant |features| == i
      invariant forall k :: 0 <= k < i ==> features[k] == ApiFeature(validBeaches[k], now)
    {
      var feature := TransformApiBeach(validBeaches[i], now);
      ApiFeatureStep(features, feature, validBeaches, now);
      features := features + [feature];
    }
    forall i | 0 <= i < |features|
      ensures && features[i].properties.dataStatus == Some(API_ONLY)
              && features[i].properties.coordinates.Some?
              && InCalifornia(features[i].properties.coordinates.value.latitude,
                              features[i].properties.coordinates.value.longitude)
    {
      assert IsValidRecord(validBeaches[i]);
      ApiFeatureInCalifornia(validBeaches[i], now);
    }
  }
}
