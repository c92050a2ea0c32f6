/**
 * The management heuristic of the research step: each top-50 beach gets a guessed
 * management record from keywords in its name, tried in a fixed order (state, federal,
 * city, county), and the city branch names a city looked up from the county.
 */
module AutoResearch {
  import opened Wrappers
  import opened Text
  import opened Beach
  import SelectTop50

  const STATE_KEYWORDS: seq<string> := ["state beach", "state park"]
  const FEDERAL_KEYWORDS: seq<string> := ["national", "presidio", "golden gate", "angel island"]
  const CITY_KEYWORDS: seq<string> :=
    ["municipal", "city beach", "wharf", "pier", "embarcadero", "main beach"]

  /** The `cityMap` of `getCityFromCounty`: thirteen coastal counties and their city. */
  const CITY_MAP: map<string, string> := map[
    "San Francisco" := "San Francisco",
    "Santa Cruz" := "Santa Cruz",
    "Monterey" := "Monterey",
    "San Diego" := "San Diego",
    "Los Angeles" := "Los Angeles",
    "Orange" := "Newport Beach",
    "Santa Barbara" := "Santa Barbara",
    "Ventura" := "Ventura",
    "San Mateo" := "Pacifica",
    "Marin" := "Sausalito",
    "Sonoma" := "Bodega Bay",
    "Mendocino" := "Mendocino",
    "Humboldt" := "Eureka"]

  /**
   * `cityMap[county] || county`: the listed city, or the county itself. No listed city is
   * empty, so the fallback is taken exactly for the unlisted counties.
   */
  function CityFromCounty(county: string): (city: string)
    ensures county in CITY_MAP ==> city == CITY_MAP[county]
    ensures county !in CITY_MAP ==> city == county
    ensures city == "" <==> county == ""
  {
    if county in CITY_MAP && CITY_MAP[county] != "" then CITY_MAP[county] else county
  }

  /** Two table rows that rename, and an unlisted county that falls through. */
  lemma CityLookupExamples()
    ensures CityFromCounty("Orange") == "Newport Beach"
    ensures CityFromCounty("Marin") == "Sausalito"
    ensures CityFromCounty("Del Norte") == "Del Norte"
  {
    assert "Del Norte" !in CITY_MAP;
  }

  /** The `Partial<ResearchedBeach>` each branch of `inferManagementFromName` returns. */
  datatype Inferred = Inferred(
    managementType: ManagementType,
    accountableEntity: string,
    managingEntity: string,
    lifeguardService: string,
    managerContact: Contact,
    dataStatus: string)

  function WebContact(department: string, phone: Option<string>, website: string): Contact {
    Contact(Some(department), phone, None, Some(website), None)
  }

  /** `inferManagementFromName`: the first keyword group found in the lowercased name decides. */
  function InferManagement(name: string, county: string): (r: Inferred)
    ensures r.dataStatus == PARTIAL
    ensures r.accountableEntity != "" && r.managingEntity != "" && r.lifeguardService != ""
    ensures Truthy(r.managerContact.department) && Truthy(r.managerContact.website)
  {
    var nameLower := Lower(name);
    if ContainsAny(nameLower, STATE_KEYWORDS) then
      Inferred(StateManaged, "State of California", "California State Parks",
        "California State Parks Lifeguards",
        WebContact("State Parks District Office", None, "https://www.parks.ca.gov"), PARTIAL)
    else if ContainsAny(nameLower, FEDERAL_KEYWORDS) then
      Inferred(FederalManaged, "U.S. Federal Government", "National Park Service",
        "National Park Service Rangers",
        WebContact("Golden Gate National Recreation Area", Some("(415) 561-4700"),
          "https://www.nps.gov/goga"), PARTIAL)
    else if ContainsAny(nameLower, CITY_KEYWORDS) then
      var cityName := CityFromCounty(county);
      Inferred(CityManaged, "City of " + cityName, cityName + " Parks & Recreation",
        cityName + " Lifeguard Services",
        WebContact("Parks and Recreation Department", None,
          "https://www." + HostName(cityName) + ".gov"), PARTIAL)
    else
      Inferred(CountyManaged, "County of " + county, county + " County Parks and Recreation",
        county + " County Lifeguards",
        WebContact("Department of Parks and Recreation", None,
          "https://www." + HostName(county) + "county.gov"), PARTIAL)
  }

  /** The keyword groups are tried in the order state, federal, city, and county is the default. */
  lemma InferPrecedence(name: string, county: string)
    ensures var n, t := Lower(name), InferManagement(name, county).managementType;
      && (t == StateManaged <==> ContainsAny(n, STATE_KEYWORDS))
      && (t == FederalManaged <==> !ContainsAny(n, STATE_KEYWORDS) && ContainsAny(n, FEDERAL_KEYWORDS))
      && (t == CityManaged <==>
            !ContainsAny(n, STATE_KEYWORDS) && !ContainsAny(n, FEDERAL_KEYWORDS)
            && ContainsAny(n, CITY_KEYWORDS))
      && (t == CountyManaged <==>
            !ContainsAny(n, STATE_KEYWORDS) && !ContainsAny(n, FEDERAL_KEYWORDS)
            && !ContainsAny(n, CITY_KEYWORDS))
      && t != SpecialDistrict
  {
  }

  /** Only the lowercased name is consulted, so names differing in case classify alike. */
  lemma InferCaseInsensitive(name: string, other: string, county: string)
    requires Lower(name) == Lower(other)
    ensures InferManagement(name, county) == InferManagement(other, county)
  {
  }

  /** Lowercasing the name first changes nothing. */
  lemma InferOfLowered(name: string, county: string)
    ensures InferManagement(Lower(name), county) == InferManagement(name, county)
  {
    LowerIdempotent(name);
    InferCaseInsensitive(Lower(name), name, county);
  }

  /** A name with a state keyword is state-managed whatever else it mentions. */
  lemma {:induction false} StateBeatsPier(before: string, after: string, county: string)
    ensures InferManagement(before + "state beach" + after + " pier", county).managementType == StateManaged
  {
    var name := before + "state beach" + after + " pier";
    assert name == before + "state beach" + (after + " pier");
    LowerAppend(before + "state beach", after + " pier");
    LowerAppend(before, "state beach");
    LowerOfLowerCase("state beach");
    ContainsInConcat(Lower(before), "state beach", Lower(after + " pier"));
    assert Contains(Lower(name), STATE_KEYWORDS[0]);
  }

  /** The city branch names the looked-up city, and its website host is lowercased and has no blanks. */
  lemma CityBranch(name: string, county: string)
    requires InferManagement(name, county).managementType == CityManaged
    ensures var r, city := InferManagement(name, county), CityFromCounty(county);
      && r.accountableEntity == "City of " + city
      && r.managingEntity == city + " Parks & Recreation"
      && r.managerContact.department == Some("Parks and Recreation Department")
      && r.managerContact.website == Some("https://www." + HostName(city) + ".gov")
      && IsLowerCase(HostName(city))
      && forall c :: c in HostName(city) ==> !IsWhitespace(c)
  {
  }

  /** The county branch names the county itself, and its website host is lowercased and has no blanks. */
  lemma CountyBranch(name: string, county: string)
    requires InferManagement(name, county).managementType == CountyManaged
    ensures var r := InferManagement(name, county);
      && r.accountableEntity == "County of " + county
      && r.managingEntity == county + " County Parks and Recreation"
      && r.managerContact.department == Some("Department of Parks and Recreation")
      && r.managerContact.website == Some("https://www." + HostName(county) + "county.gov")
      && IsLowerCase(HostName(county))
      && forall c :: c in HostName(county) ==> !IsWhitespace(c)
  {
  }

  // ------------------------------------------------------------ driver

  /** One record of `researched-beaches.json`. */
  datatype ResearchedBeach = ResearchedBeach(
    id: string,
    managementType: ManagementType,
    accountableEntity: string,
    managingEntity: string,
    contractedManager: Option<string>,
    lifeguardService: Option<string>,
    managerContact: Contact,
    dataStatus: string,
    notes: string)

  const NOTES: string :=
    "Auto-generated management data based on naming heuristics. Manual verification recommended."

  /** The body of the `top50.map` callback. */
  function Research(beach: SelectTop50.BeachScore): (r: ResearchedBeach)
    ensures r.id == beach.id && r.dataStatus == PARTIAL && r.contractedManager.None?
    ensures r.managementType == InferManagement(beach.name, beach.county).managementType
    ensures r.accountableEntity != "" && r.managingEntity != ""
    ensures Truthy(r.managerContact.department)
  {
    var inferred := InferManagement(beach.name, beach.county);
    ResearchedBeach(beach.id, inferred.managementType, inferred.accountableEntity,
      inferred.managingEntity, None, Some(inferred.lifeguardService), inferred.managerContact,
      PARTIAL, NOTES)
  }

  /** `autoResearch` without the files: one record per top-50 entry, in the same order. */
  function AutoResearch(top50: seq<SelectTop50.BeachScore>): (researched: seq<ResearchedBeach>)
    ensures |researched| == |top50|
    ensures forall i :: 0 <= i < |top50| ==> researched[i] == Research(top50[i])
  {
    seq(|top50|, i requires 0 <= i < |top50| => Research(top50[i]))
  }

  /** Same order, same ids, every record partial and carrying all three management fields. */
  lemma AutoResearchRecords(top50: seq<SelectTop50.BeachScore>)
    ensures var researched := AutoResearch(top50);
      forall i :: 0 <= i < |top50| ==>
        && researched[i].id == top50[i].id
        && researched[i].dataStatus == PARTIAL
        && researched[i].accountableEntity != ""
        && researched[i].managingEntity != ""
  {
  }

  /** A record as the merge step reads it back from JSON: keys left undefined are absent. */
  function AsProperties(r: ResearchedBeach): (p: Properties)
    ensures p.id == Some(r.id) && p.dataStatus == Some(r.dataStatus)
    ensures p.managementType == Some(r.managementType.Name())
    ensures p.accountableEntity == Some(r.accountableEntity) && p.managingEntity == Some(r.managingEntity)
    ensures p.name.None? && p.coordinates.None? && p.researchPriority.None?
  {
    NO_PROPERTIES.(
      id := Some(r.id),
      managementType := Some(r.managementType.Name()),
      accountableEntity := Some(r.accountableEntity),
      managingEntity := Some(r.managingEntity),
      contractedManager := r.contractedManager,
      lifeguardService := r.lifeguardService,
      managerContact := Some(r.managerContact),
      dataStatus := Some(r.dataStatus),
      notes := Some(r.notes))
  }
}
