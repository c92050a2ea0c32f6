/**
 * The merger: each feature takes the first researched record with the same id, shallowly
 * (override keys win), is stamped `complete` with a fresh `lastUpdated`, and the whole list is
 * sorted in place by `(researchPriority || 9999, name)`.
 */
module MergeDataSources {
  import opened Wrappers
  import opened Text
  import opened Seqs
  import opened StableSort
  import opened Beach

  /** The sort key given to features outside the priority set. */
  const NO_PRIORITY: int := 9999

  /** The researched records; a file that is missing or unreadable (`None`) counts as none. */
  function Researched(file: Option<seq<Properties>>): (r: seq<Properties>)
    ensures file.None? ==> r == []
  {
    file.GetOr([])
  }

  /** `researchedData.find(r => r.id === feature.properties.id)` */
  function MatchingOverride(researched: seq<Properties>, id: Option<string>): Option<Properties> {
    Find((r: Properties) => r.id == id, researched)
  }

  /** `{ ...base, ...o }`: every key present in `o` replaces the one in `base`. */
  function Overlay(base: Properties, o: Properties): (r: Properties)
    ensures o == NO_PROPERTIES ==> r == base
    ensures base == NO_PROPERTIES ==> r == o
  {
    Properties(
      o.id.Or(base.id),
      o.name.Or(base.name),
      o.county.Or(base.county),
      o.region.Or(base.region),
      o.coordinates.Or(base.coordinates),
      o.dataStatus.Or(base.dataStatus),
      o.lastUpdated.Or(base.lastUpdated),
      o.managementType.Or(base.managementType),
      o.accountableEntity.Or(base.accountableEntity),
      o.managingEntity.Or(base.managingEntity),
      o.contractedManager.Or(base.contractedManager),
      o.lifeguardService.Or(base.lifeguardService),
      o.managerContact.Or(base.managerContact),
      o.facilities.Or(base.facilities),
      o.accessibility.Or(base.accessibility),
      o.researchPriority.Or(base.researchPriority),
      o.apiSourceId.Or(base.apiSourceId),
      o.notes.Or(base.notes))
  }

  /** Spreading the same record twice is spreading it once. */
  lemma OverlayIdempotent(base: Properties, o: Properties)
    ensures Overlay(Overlay(base, o), o) == Overlay(base, o)
  {
  }

  /** Two spreads in a row are one spread of the combined record. */
  lemma OverlayAssociative(base: Properties, o1: Properties, o2: Properties)
    ensures Overlay(Overlay(base, o1), o2) == Overlay(base, Overlay(o1, o2))
  {
  }

  /** A spread never removes a required key, so well-typed features stay well-typed. */
  lemma OverlayKeepsWellTyped(base: Properties, o: Properties)
    requires WellTyped(base)
    ensures WellTyped(Overlay(base, o))
  {
  }

  /** The properties of a matched feature: the spread, then `complete` and the timestamp `now`. */
  function MergedProperties(base: Properties, o: Properties, now: string): Properties {
    Overlay(base, o).(dataStatus := Some(COMPLETE), lastUpdated := Some(now))
  }

  /** The body of the merge `map` for one feature. */
  function MergeOne(f: Feature, researched: seq<Properties>, now: string): Feature {
    match MatchingOverride(researched, f.properties.id)
    case None => f
    case Some(o) => f.(properties := MergedProperties(f.properties, o, now))
  }

  /**
   * For a feature some researched record matches, the first such record is spread over it; the
   * status becomes `complete` whatever fields the record holds, and the geometry is kept.
   * A feature no record matches is returned unchanged.
   */
  lemma MergeOneContract(f: Feature, researched: seq<Properties>, now: string)
    ensures (forall i :: 0 <= i < |researched| ==> researched[i].id != f.properties.id) ==>
      MergeOne(f, researched, now) == f
    ensures forall i ::
      (0 <= i < |researched| && researched[i].id == f.properties.id
       && forall j :: 0 <= j < i ==> researched[j].id != f.properties.id) ==>
      && MergeOne(f, researched, now).geometry == f.geometry
      && MergeOne(f, researched, now).properties == MergedProperties(f.properties, researched[i], now)
      && MergeOne(f, researched, now).properties.dataStatus == Some(COMPLETE)
      && MergeOne(f, researched, now).properties.lastUpdated == Some(now)
      && MergeOne(f, researched, now).properties.id == f.properties.id
  {
  }

  /** One key after `{...base, ...o}`: the record's value when it has the key, the feature's otherwise. */
  predicate SpreadKey<T(==)>(baseValue: Option<T>, overValue: Option<T>, merged: Option<T>) {
    && (overValue.Some? ==> merged == overValue)
    && (overValue.None? ==> merged == baseValue)
  }

  /**
   * Keys the matched record lacks keep the feature's values and keys it has take the record's,
   * for every key but `dataStatus` and `lastUpdated`, which become `complete` and `now`
   * whatever either side holds.
   */
  lemma MergedFieldWise(base: Properties, o: Properties, now: string)
    ensures var m := MergedProperties(base, o, now);
      && SpreadKey(base.id, o.id, m.id)
      && SpreadKey(base.name, o.name, m.name)
      && SpreadKey(base.county, o.county, m.county)
      && SpreadKey(base.region, o.region, m.region)
      && SpreadKey(base.coordinates, o.coordinates, m.coordinates)
      && SpreadKey(base.managementType, o.managementType, m.managementType)
      && SpreadKey(base.accountableEntity, o.accountableEntity, m.accountableEntity)
      && SpreadKey(base.managingEntity, o.managingEntity, m.managingEntity)
      && SpreadKey(base.contractedManager, o.contractedManager, m.contractedManager)
      && SpreadKey(base.lifeguardService, o.lifeguardService, m.lifeguardService)
      && SpreadKey(base.managerContact, o.managerContact, m.managerContact)
      && SpreadKey(base.facilities, o.facilities, m.facilities)
      && SpreadKey(base.accessibility, o.accessibility, m.accessibility)
      && SpreadKey(base.researchPriority, o.researchPriority, m.researchPriority)
      && SpreadKey(base.apiSourceId, o.apiSourceId, m.apiSourceId)
      && SpreadKey(base.notes, o.notes, m.notes)
      && m.dataStatus == Some(COMPLETE)
      && m.lastUpdated == Some(now)
  {
  }

  /** Merging a merged feature again with the same records and timestamp changes nothing. */
  lemma MergeOneIdempotent(f: Feature, researched: seq<Properties>, now: string)
    ensures MergeOne(MergeOne(f, researched, now), researched, now) == MergeOne(f, researched, now)
  {
    match MatchingOverride(researched, f.properties.id)
    case None =>
    case Some(o) =>
      assert o.id == f.properties.id;
      var g := MergeOne(f, researched, now);
      assert g.properties.id == f.properties.id;
      OverlayIdempotent(f.properties, o);
  }

  /** The merge `map` over all features. */
  function MergeAll(features: seq<Feature>, researched: seq<Properties>, now: string): (r: seq<Feature>)
    ensures |r| == |features|
    ensures forall i :: 0 <= i < |r| ==> r[i] == MergeOne(features[i], researched, now)
  {
    seq(|features|, i requires 0 <= i < |features| => MergeOne(features[i], researched, now))
  }

  /** A missing researched file leaves every feature as it was. */
  lemma MissingFileChangesNothing(features: seq<Feature>, now: string)
    ensures MergeAll(features, Researched(None), now) == features
  {
  }

  /** Records whose id matches no feature play no part. */
  lemma UnmatchedRecordsIgnored(features: seq<Feature>, researched: seq<Properties>, extra: Properties, now: string)
    requires forall i :: 0 <= i < |features| ==> extra.id != features[i].properties.id
    ensures MergeAll(features, researched + [extra], now) == MergeAll(features, researched, now)
  {
    forall i | 0 <= i < |features|
      ensures MergeOne(features[i], researched + [extra], now) == MergeOne(features[i], researched, now)
    {
      var id := features[i].properties.id;
      var p := (r: Properties) => r.id == id;
      var k := FindIndex(p, researched + [extra]);
      var k0 := FindIndex(p, researched);
      if k0 == -1 {
        assert k == -1;
      } else {
        assert (researched + [extra])[k0] == researched[k0];
        assert k == k0;
      }
    }
  }

  // --------------------------------------------------------------- sort

  /** `researchPriority || 9999` */
  function PriorityKey(p: Properties): int {
    if TruthyNumber(p.researchPriority) then p.researchPriority.value else NO_PRIORITY
  }

  /**
   * The comparator: smaller priority key first, then names in (code point) order. The sort is
   * only run on named features (`localeCompare` on a missing name throws), so the empty name
   * stands in for a case that does not arise.
   */
  function ByPriorityThenName(a: Feature, b: Feature): bool {
    var ka, kb := PriorityKey(a.properties), PriorityKey(b.properties);
    if ka != kb then ka < kb
    else LexLess(a.properties.name.GetOr(""), b.properties.name.GetOr(""))
  }

  lemma ByPriorityThenNameIsStrictWeakOrder()
    ensures StrictWeakOrder(ByPriorityThenName)
  {
    forall x: Feature
      ensures !ByPriorityThenName(x, x)
    {
      LexLessIrreflexive(x.properties.name.GetOr(""));
    }
    forall x: Feature, y: Feature, z: Feature | ByPriorityThenName(x, y) && ByPriorityThenName(y, z)
      ensures ByPriorityThenName(x, z)
    {
      var nx, ny, nz := x.properties.name.GetOr(""), y.properties.name.GetOr(""), z.properties.name.GetOr("");
      if PriorityKey(x.properties) == PriorityKey(y.properties) == PriorityKey(z.properties) {
        LexLessTransitive(nx, ny, nz);
      }
    }
    forall x: Feature, y: Feature, z: Feature | ByPriorityThenName(x, z)
      ensures ByPriorityThenName(x, y) || ByPriorityThenName(y, z)
    {
      var nx, ny, nz := x.properties.name.GetOr(""), y.properties.name.GetOr(""), z.properties.name.GetOr("");
      LexLessTotal(nx, ny);
      LexLessTotal(ny, nz);
      if PriorityKey(x.properties) == PriorityKey(y.properties) == PriorityKey(z.properties)
        && !LexLess(nx, ny) && !LexLess(ny, nz)
      {
        if nx != ny {
          LexLessTransitive(ny, nx, nz);
        }
      }
    }
  }

  /** The order `mergeDataSources` writes the features in. */
  function Ordered(features: seq<Feature>): seq<Feature> {
    SortSpec(features, ByPriorityThenName)
  }

  /**
   * The sorted list is a permutation of its input with non-decreasing priority keys, names in
   * order within a key, so every feature with a priority below 9999 precedes every feature without one.
   */
  lemma OrderedContract(features: seq<Feature>)
    requires forall i :: 0 <= i < |features| ==> features[i].properties.name.Some?
    ensures multiset(Ordered(features)) == multiset(features)
    ensures forall i, j :: 0 <= i < j < |Ordered(features)| ==>
      PriorityKey(Ordered(features)[i].properties) <= PriorityKey(Ordered(features)[j].properties)
    ensures forall i, j ::
      (0 <= i < j < |Ordered(features)|
       && PriorityKey(Ordered(features)[i].properties) == PriorityKey(Ordered(features)[j].properties)) ==>
      !LexLess(Ordered(features)[j].properties.name.GetOr(""), Ordered(features)[i].properties.name.GetOr(""))
    ensures forall i, j ::
      (0 <= i < |Ordered(features)| && 0 <= j < |Ordered(features)|
       && PriorityKey(Ordered(features)[i].properties) < NO_PRIORITY
       && !TruthyNumber(Ordered(features)[j].properties.researchPriority)) ==> i < j
  {
    SortPermutes(features, ByPriorityThenName);
    ByPriorityThenNameIsStrictWeakOrder();
    SortSorted(features, ByPriorityThenName);
    var r := Ordered(features);
    forall i, j | 0 <= i < |r| && 0 <= j < |r|
      && PriorityKey(r[i].properties) < NO_PRIORITY && !TruthyNumber(r[j].properties.researchPriority)
      ensures i < j
    {
      if j <= i {
        assert false;
      }
    }
  }

  /** The output of the merge stage for a researched file `file` read at time `now`. */
  function MergedOutput(features: seq<Feature>, file: Option<seq<Properties>>, now: string): seq<Feature> {
    Ordered(MergeAll(features, Researched(file), now))
  }

  /** The merge keeps the number of features. */
  lemma MergedOutputLength(features: seq<Feature>, file: Option<seq<Properties>>, now: string)
    ensures |MergedOutput(features, file, now)| == |features|
  {
    SortPermutes(MergeAll(features, Researched(file), now), ByPriorityThenName);
    assert |multiset(MergedOutput(features, file, now))| == |multiset(MergeAll(features, Researched(file), now))|;
  }

  /**
   * `mergeDataSources` without the file I/O: reassign each matched feature's properties, then
   * sort the array in place.
   */
  method MergeDataSourcesRun(features: array<Feature>, file: Option<seq<Properties>>, now: string)
    requires forall i :: 0 <= i < features.Length ==> features[i].properties.name.Some?
    modifies features
    ensures features[..] == MergedOutput(old(features[..]), file, now)
  {
    var researchedData: seq<Properties> := [];
    if file.Some? {
      researchedData := file.value;
    }
    ghost var input := features[..];
    for i := 0 to features.Length
      invariant forall k :: 0 <= k < i ==> features[k] == MergeOne(input[k], researchedData, now)
      invariant forall k :: i <= k < features.Length ==> features[k] == input[k]
    {
      var feature := features[i];
      var researchedBeach := MatchingOverride(researchedData, feature.properties.id);
      if researchedBeach.Some? {
        var merged := Overlay(feature.properties, researchedBeach.value);
        features[i] := feature.(properties := merged.(dataStatus := Some(COMPLETE), lastUpdated := Some(now)));
      }
    }
    assert features[..] == MergeAll(input, Researched(file), now);
    SortInPlace(features, ByPriorityThenName);
  }
}
