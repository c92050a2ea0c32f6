/**
 * Facts that connect the stages: what the research file written by the heuristic does to the
 * merge, how the merge's forced `complete` meets the validator, and how the priority set
 * chosen by the scorer meets the map's zoom rule.
 */
module Pipeline {
  import opened Wrappers
  import opened Seqs
  import opened Beach
  import SelectTop50
  import AutoResearch
  import MergeDataSources
  import ValidateData
  import BeachLayer

  /** `researched-beaches.json` as written by the heuristic and read back by the merge. */
  function ResearchFile(top50: seq<SelectTop50.BeachScore>): (file: seq<Properties>)
    ensures |file| == |top50|
    ensures forall i :: 0 <= i < |top50| ==> file[i].id == Some(top50[i].id)
  {
    var researched := AutoResearch.AutoResearch(top50);
    seq(|researched|, i requires 0 <= i < |researched| => AutoResearch.AsProperties(researched[i]))
  }

  /** Every record of the research file carries the three management fields. */
  lemma ResearchFileHasManagement(top50: seq<SelectTop50.BeachScore>, o: Properties)
    requires o in ResearchFile(top50)
    ensures Truthy(o.managementType) && Truthy(o.accountableEntity) && Truthy(o.managingEntity)
    ensures o.researchPriority.None?
  {
    var file := ResearchFile(top50);
    var i :| 0 <= i < |file| && file[i] == o;
    var r := AutoResearch.AutoResearch(top50)[i];
    assert o == AutoResearch.AsProperties(r);
    assert r.managementType.Name() != "" by {
      match r.managementType
      case StateManaged =>
      case CountyManaged =>
      case CityManaged =>
      case SpecialDistrict =>
      case FederalManaged =>
    }
  }

  /** A beach carrying the three management fields raises no completeness error. */
  lemma ManagedPassesCompleteness(g: Feature, e: ValidateData.ValidationError)
    requires Truthy(g.properties.managementType) && Truthy(g.properties.accountableEntity)
    requires Truthy(g.properties.managingEntity)
    requires ValidateData.IsCompletenessError(e)
    ensures e !in ValidateData.Errors(g)
  {
    ValidateData.ErrorsExact(g, e);
  }

  /**
   * A beach matched by a heuristic record leaves the merge `complete` and passes every
   * completeness check of the validator.
   */
  lemma AutoResearchedMergeIsComplete(f: Feature, top50: seq<SelectTop50.BeachScore>, now: string)
    requires MergeDataSources.MatchingOverride(ResearchFile(top50), f.properties.id).Some?
    ensures var g := MergeDataSources.MergeOne(f, ResearchFile(top50), now);
      && g.properties.dataStatus == Some(COMPLETE)
      && forall e :: ValidateData.IsCompletenessError(e) ==> e !in ValidateData.Errors(g)
  {
    var file := ResearchFile(top50);
    var o := MergeDataSources.MatchingOverride(file, f.properties.id).value;
    assert o in file;
    ResearchFileHasManagement(top50, o);
    var g := MergeDataSources.MergeOne(f, file, now);
    assert g.properties == MergeDataSources.MergedProperties(f.properties, o, now);
    assert g.properties.managementType == o.managementType;
    assert g.properties.accountableEntity == o.accountableEntity;
    assert g.properties.managingEntity == o.managingEntity;
    forall e | ValidateData.IsCompletenessError(e)
      ensures e !in ValidateData.Errors(g)
    {
      ManagedPassesCompleteness(g, e);
    }
  }

  /**
   * The merge marks a matched beach `complete` whatever the record holds: a record naming only
   * a management type, over a beach with no accountable entity, yields a beach the validator
   * rejects.
   */
  lemma ForcedCompleteIsFlagged(f: Feature, now: string)
    requires f.properties.id == Some("x") && !Truthy(f.properties.accountableEntity)
    ensures var g := MergeDataSources.MergeOne(f, [NO_PROPERTIES.(id := Some("x"), managementType := Some("state"))], now);
      && g.properties.dataStatus == Some(COMPLETE)
      && g.properties.managementType == Some("state")
      && ValidateData.CompleteMissingAccountableEntity in ValidateData.Errors(g)
  {
    var o := NO_PROPERTIES.(id := Some("x"), managementType := Some("state"));
    var g := MergeDataSources.MergeOne(f, [o], now);
    assert MergeDataSources.MatchingOverride([o], f.properties.id) == Some(o);
    ValidateData.ErrorsExact(g, ValidateData.CompleteMissingAccountableEntity);
  }

  /** A beach the scorer puts in the top 50 is shown at every zoom level. */
  lemma TopBeachesAlwaysVisible(f: Feature, top: seq<SelectTop50.BeachScore>, zoom: real)
    requires |top| <= SelectTop50.TOP_N
    requires exists i :: 0 <= i < |top| && Some(top[i].id) == f.properties.id
    ensures BeachLayer.ShouldShowAtZoom(zoom, SelectTop50.Prioritized(f, top).properties)
  {
    var k := FindIndex(SelectTop50.SameId(f), top);
    assert k != -1;
  }

  /** Merging the heuristic's records keeps a priority beach a priority beach. */
  lemma MergeKeepsPriority(f: Feature, top50: seq<SelectTop50.BeachScore>, now: string)
    requires IsPriority(f.properties)
    ensures IsPriority(MergeDataSources.MergeOne(f, ResearchFile(top50), now).properties)
  {
    var file := ResearchFile(top50);
    match MergeDataSources.MatchingOverride(file, f.properties.id)
    case None =>
    case Some(o) =>
      assert o in file;
      ResearchFileHasManagement(top50, o);
  }
}
