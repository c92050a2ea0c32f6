/**
 * The validator: each beach gets a list of errors and a list of warnings; the run fails when
 * any beach has an error, and at most ten beaches with warnings are shown in detail.
 * Messages are kept as constructors; the values a message interpolates are their arguments.
 */
module ValidateData {
  import opened Wrappers
  import opened Seqs
  import opened Beach

  datatype ValidationError =
    | MissingId
    | MissingName
    | MissingCounty
    | MissingRegion
    | MissingDataStatus
    | MissingLastUpdated
    | LatitudeOutOfRange(latitude: real)
    | LongitudeOutOfRange(longitude: real)
    | MissingCoordinates
    | InvalidGeometry
    | InvalidRegion(region: string)
    | CompleteMissingManagementType
    | CompleteMissingAccountableEntity
    | CompleteMissingManagingEntity

  datatype ValidationWarning =
    | PriorityStillApiOnly
    | PriorityMissingManagementType
    | PriorityMissingAccountableEntity
    | PriorityMissingManagingEntity
    | PriorityMissingPhone
    | PriorityMissingWebsite

  datatype ValidationResult = ValidationResult(
    beachId: Option<string>,
    beachName: Option<string>,
    errors: seq<ValidationError>,
    warnings: seq<ValidationWarning>)

  /** `if (c) list.push(x)` */
  function PushIf<T(!new)>(list: seq<T>, c: bool, x: T): (r: seq<T>)
    ensures forall y :: y in r <==> y in list || (c && y == x)
    ensures |list| <= |r| <= |list| + 1
  {
    if c then list + [x] else list
  }

  const REGIONS: seq<string> := ["north", "central", "south"]

  // ------------------------------------------------------------ errors

  function RequiredFieldChecks(p: Properties, errors: seq<ValidationError>): seq<ValidationError> {
    var e1 := PushIf(errors, !Truthy(p.id), MissingId);
    var e2 := PushIf(e1, !Truthy(p.name), MissingName);
    var e3 := PushIf(e2, !Truthy(p.county), MissingCounty);
    var e4 := PushIf(e3, !Truthy(p.region), MissingRegion);
    var e5 := PushIf(e4, !Truthy(p.dataStatus), MissingDataStatus);
    PushIf(e5, !Truthy(p.lastUpdated), MissingLastUpdated)
  }

  function CoordinateChecks(p: Properties, errors: seq<ValidationError>): seq<ValidationError> {
    if p.coordinates.Some? then
      var c := p.coordinates.value;
      var e1 := PushIf(errors, c.latitude < 32.0 || c.latitude > 42.0, LatitudeOutOfRange(c.latitude));
      PushIf(e1, c.longitude < -125.0 || c.longitude > -114.0, LongitudeOutOfRange(c.longitude))
    else
      errors + [MissingCoordinates]
  }

  predicate IsPolygon(geometry: Option<Geometry>) {
    geometry.Some? && geometry.value.Polygon?
  }

  function GeometryCheck(f: Feature, errors: seq<ValidationError>): seq<ValidationError> {
    PushIf(errors, !IsPolygon(f.geometry), InvalidGeometry)
  }

  function RegionCheck(p: Properties, errors: seq<ValidationError>): seq<ValidationError> {
    PushIf(errors, Truthy(p.region) && p.region.value !in REGIONS, InvalidRegion(p.region.GetOr("")))
  }

  function CompletenessChecks(p: Properties, errors: seq<ValidationError>): seq<ValidationError> {
    if p.dataStatus == Some(COMPLETE) then
      var e1 := PushIf(errors, !Truthy(p.managementType), CompleteMissingManagementType);
      var e2 := PushIf(e1, !Truthy(p.accountableEntity), CompleteMissingAccountableEntity);
      PushIf(e2, !Truthy(p.managingEntity), CompleteMissingManagingEntity)
    else
      errors
  }

  /** The error list of `validateBeachData`, in push order. */
  function Errors(f: Feature): seq<ValidationError> {
    var p := f.properties;
    CompletenessChecks(p, RegionCheck(p, GeometryCheck(f, CoordinateChecks(p, RequiredFieldChecks(p, [])))))
  }

  // ---------------------------------------------------------- warnings

  predicate HasPhone(p: Properties) {
    p.managerContact.Some? && Truthy(p.managerContact.value.phone)
  }

  predicate HasWebsite(p: Properties) {
    p.managerContact.Some? && Truthy(p.managerContact.value.website)
  }

  /** The warning list of `validateBeachData`, in push order. */
  function Warnings(f: Feature): seq<ValidationWarning> {
    var p := f.properties;
    if IsPriority(p) then
      var w1 := PushIf([], p.dataStatus == Some(API_ONLY), PriorityStillApiOnly);
      var w2 := PushIf(w1, !Truthy(p.managementType), PriorityMissingManagementType);
      var w3 := PushIf(w2, !Truthy(p.accountableEntity), PriorityMissingAccountableEntity);
      var w4 := PushIf(w3, !Truthy(p.managingEntity), PriorityMissingManagingEntity);
      var w5 := PushIf(w4, !HasPhone(p), PriorityMissingPhone);
      PushIf(w5, !HasWebsite(p), PriorityMissingWebsite)
    else
      []
  }

  function Validate(f: Feature): ValidationResult {
    ValidationResult(f.properties.id, f.properties.name, Errors(f), Warnings(f))
  }

  // ------------------------------------------------------------ lemmas

  /**
   * When `validateBeachData` reports `e`: a required field missing or empty, a coordinate outside
   * the inclusive box (naming the value), no coordinates, a geometry other than a polygon, a
   * present region other than the three, or a `complete` beach lacking a management field.
   */
  predicate Reported(f: Feature, e: ValidationError) {
    var p := f.properties;
    match e
    case MissingId => !Truthy(p.id)
    case MissingName => !Truthy(p.name)
    case MissingCounty => !Truthy(p.county)
    case MissingRegion => !Truthy(p.region)
    case MissingDataStatus => !Truthy(p.dataStatus)
    case MissingLastUpdated => !Truthy(p.lastUpdated)
    case LatitudeOutOfRange(v) =>
      p.coordinates.Some? && p.coordinates.value.latitude == v && (v < 32.0 || v > 42.0)
    case LongitudeOutOfRange(v) =>
      p.coordinates.Some? && p.coordinates.value.longitude == v && (v < -125.0 || v > -114.0)
    case MissingCoordinates => p.coordinates.None?
    case InvalidGeometry => !IsPolygon(f.geometry)
    case InvalidRegion(r) => p.region == Some(r) && r != "" && r !in REGIONS
    case CompleteMissingManagementType => p.dataStatus == Some(COMPLETE) && !Truthy(p.managementType)
    case CompleteMissingAccountableEntity => p.dataStatus == Some(COMPLETE) && !Truthy(p.accountableEntity)
    case CompleteMissingManagingEntity => p.dataStatus == Some(COMPLETE) && !Truthy(p.managingEntity)
  }

  predicate IsRequiredFieldError(e: ValidationError) {
    e.MissingId? || e.MissingName? || e.MissingCounty? || e.MissingRegion? || e.MissingDataStatus?
    || e.MissingLastUpdated?
  }

  predicate IsCoordinateError(e: ValidationError) {
    e.LatitudeOutOfRange? || e.LongitudeOutOfRange? || e.MissingCoordinates?
  }

  predicate IsCompletenessError(e: ValidationError) {
    e.CompleteMissingManagementType? || e.CompleteMissingAccountableEntity? || e.CompleteMissingManagingEntity?
  }

  lemma RequiredFieldChecksMembership(f: Feature, errors: seq<ValidationError>, e: ValidationError)
    ensures e in RequiredFieldChecks(f.properties, errors) <==>
      e in errors || (IsRequiredFieldError(e) && Reported(f, e))
  {
  }

  lemma CoordinateChecksMembership(f: Feature, errors: seq<ValidationError>, e: ValidationError)
    ensures e in CoordinateChecks(f.properties, errors) <==>
      e in errors || (IsCoordinateError(e) && Reported(f, e))
  {
  }

  lemma CompletenessChecksMembership(f: Feature, errors: seq<ValidationError>, e: ValidationError)
    ensures e in CompletenessChecks(f.properties, errors) <==>
      e in errors || (IsCompletenessError(e) && Reported(f, e))
  {
  }

  /** The error list holds exactly the errors `Reported` describes. */
  lemma ErrorsExact(f: Feature, e: ValidationError)
    ensures e in Errors(f) <==> Reported(f, e)
  {
    var p := f.properties;
    var e1 := RequiredFieldChecks(p, []);
    var e2 := CoordinateChecks(p, e1);
    var e3 := GeometryCheck(f, e2);
    var e4 := RegionCheck(p, e3);
    RequiredFieldChecksMembership(f, [], e);
    CoordinateChecksMembership(f, e1, e);
    CompletenessChecksMembership(f, e4, e);
  }

  /** A point inside the inclusive box, boundaries included, draws no coordinate error. */
  lemma BoundaryCoordinatesValid(f: Feature, e: ValidationError)
    requires f.properties.coordinates.Some?
    requires InCalifornia(f.properties.coordinates.value.latitude, f.properties.coordinates.value.longitude)
    requires IsCoordinateError(e)
    ensures e !in Errors(f)
  {
    ErrorsExact(f, e);
  }

  /** A beach outside the priority set has no warnings; a priority beach has at most six. */
  lemma WarningsOnlyForPriority(f: Feature)
    ensures Warnings(f) != [] ==> IsPriority(f.properties)
    ensures |Warnings(f)| <= 6
  {
  }

  /** Warnings never turn into errors: the error list does not depend on the priority. */
  lemma ErrorsIgnorePriority(f: Feature, priority: Option<int>)
    ensures Errors(f.(properties := f.properties.(researchPriority := priority))) == Errors(f)
  {
  }

  /** A beach that passes, stated field by field. */
  predicate IsValidBeach(f: Feature) {
    var p := f.properties;
    && Truthy(p.id) && Truthy(p.name) && Truthy(p.county) && Truthy(p.region)
    && Truthy(p.dataStatus) && Truthy(p.lastUpdated)
    && p.region.value in REGIONS
    && p.coordinates.Some? && InCalifornia(p.coordinates.value.latitude, p.coordinates.value.longitude)
    && IsPolygon(f.geometry)
    && (p.dataStatus == Some(COMPLETE) ==>
          Truthy(p.managementType) && Truthy(p.accountableEntity) && Truthy(p.managingEntity))
  }

  /** No error is reported exactly for the beaches that satisfy `IsValidBeach`. */
  lemma NoErrorsIffValid(f: Feature)
    ensures Errors(f) == [] <==> IsValidBeach(f)
  {
    var p := f.properties;
    if Errors(f) == [] {
      ErrorsExact(f, MissingId);
      ErrorsExact(f, MissingName);
      ErrorsExact(f, MissingCounty);
      ErrorsExact(f, MissingRegion);
      ErrorsExact(f, MissingDataStatus);
      ErrorsExact(f, MissingLastUpdated);
      ErrorsExact(f, MissingCoordinates);
      ErrorsExact(f, LatitudeOutOfRange(p.coordinates.value.latitude));
      ErrorsExact(f, LongitudeOutOfRange(p.coordinates.value.longitude));
      ErrorsExact(f, InvalidGeometry);
      ErrorsExact(f, InvalidRegion(p.region.value));
      ErrorsExact(f, CompleteMissingManagementType);
      ErrorsExact(f, CompleteMissingAccountableEntity);
      ErrorsExact(f, CompleteMissingManagingEntity);
    } else {
      ErrorsExact(f, Errors(f)[0]);
    }
  }

  // ------------------------------------------------------------ methods

  /** The six required-field checks of `validateBeachData`, pushing onto `errors`. */
  method CheckRequiredFields(props: Properties, errors: seq<ValidationError>)
    returns (errs: seq<ValidationError>)
    ensures errs == RequiredFieldChecks(props, errors)
  {
    errs := errors;
    if !Truthy(props.id) { errs := errs + [MissingId]; }
    if !Truthy(props.name) { errs := errs + [MissingName]; }
    if !Truthy(props.county) { errs := errs + [MissingCounty]; }
    if !Truthy(props.region) { errs := errs + [MissingRegion]; }
    if !Truthy(props.dataStatus) { errs := errs + [MissingDataStatus]; }
    if !Truthy(props.lastUpdated) { errs := errs + [MissingLastUpdated]; }
  }

  /** The coordinate range checks of `validateBeachData`, pushing onto `errors`. */
  method CheckCoordinates(props: Properties, errors: seq<ValidationError>)
    returns (errs: seq<ValidationError>)
    ensures errs == CoordinateChecks(props, errors)
  {
    errs := errors;
    if props.coordinates.Some? {
      var latitude, longitude := props.coordinates.value.latitude, props.coordinates.value.longitude;
      if latitude < 32.0 || latitude > 42.0 {
        errs := errs + [LatitudeOutOfRange(latitude)];
      }
      if longitude < -125.0 || longitude > -114.0 {
        errs := errs + [LongitudeOutOfRange(longitude)];
      }
    } else {
      errs := errs + [MissingCoordinates];
    }
  }

  /** The priority-beach warnings of `validateBeachData`. */
  method CheckPriority(beach: Feature) returns (warnings: seq<ValidationWarning>)
    ensures warnings == Warnings(beach)
  {
    var props := beach.properties;
    warnings := [];
    if TruthyNumber(props.researchPriority) && props.researchPriority.value <= 50 {
      if props.dataStatus == Some(API_ONLY) { warnings := warnings + [PriorityStillApiOnly]; }
      if !Truthy(props.managementType) { warnings := warnings + [PriorityMissingManagementType]; }
      if !Truthy(props.accountableEntity) { warnings := warnings + [PriorityMissingAccountableEntity]; }
      if !Truthy(props.managingEntity) { warnings := warnings + [PriorityMissingManagingEntity]; }
      if props.managerContact.None? || !Truthy(props.managerContact.value.phone) {
        warnings := warnings + [PriorityMissingPhone];
      }
      if props.managerContact.None? || !Truthy(props.managerContact.value.website) {
        warnings := warnings + [PriorityMissingWebsite];
      }
    }
  }

  /** The management checks `validateBeachData` makes of a beach marked complete. */
  method CheckCompleteness(props: Properties, errors: seq<ValidationError>)
    returns (errs: seq<ValidationError>)
    ensures errs == CompletenessChecks(props, errors)
  {
    errs := errors;
    if props.dataStatus == Some(COMPLETE) {
      if !Truthy(props.managementType) { errs := errs + [CompleteMissingManagementType]; }
      if !Truthy(props.accountableEntity) { errs := errs + [CompleteMissingAccountableEntity]; }
      if !Truthy(props.managingEntity) { errs := errs + [CompleteMissingManagingEntity]; }
    }
  }

  /** `validateBeachData`: the checks in source order; the beach is only read. */
  method ValidateBeachData(beach: Feature) returns (result: ValidationResult)
    ensures result == Validate(beach)
    ensures result.beachId == beach.properties.id && result.beachName == beach.properties.name
  {
    var props := beach.properties;
    var errors := CheckRequiredFields(props, []);
    errors := CheckCoordinates(props, errors);
    if beach.geometry.None? || !beach.geometry.value.Polygon? {
      errors := errors + [InvalidGeometry];
    }
    if Truthy(props.region) && props.region.value !in REGIONS {
      errors := errors + [InvalidRegion(props.region.value)];
    }
    var warnings := CheckPriority(beach);
    errors := CheckCompleteness(props, errors);
    result := ValidationResult(props.id, props.name, errors, warnings);
  }

  /** The most beaches with warnings listed in detail. */
  const SHOWN_WARNINGS: nat := 10

  predicate HasErrors(r: ValidationResult) {
    |r.errors| > 0
  }

  predicate HasWarnings(r: ValidationResult) {
    |r.warnings| > 0
  }

  /** The run fails iff some result carries an error. */
  lemma {:induction false} FailedIffSomeError(results: seq<ValidationResult>)
    ensures |Filter(HasErrors, results)| > 0 <==> exists i :: 0 <= i < |results| && HasErrors(results[i])
  {
    if |Filter(HasErrors, results)| > 0 {
      var r := Filter(HasErrors, results)[0];
      assert r in results;
    } else {
      forall i | 0 <= i < |results|
        ensures !HasErrors(results[i])
      {
        assert results[i] in results;
      }
    }
  }

  /** The detailed warning list: at most ten, all with warnings, and all of them when fewer. */
  lemma ShownWarnings(results: seq<ValidationResult>)
    ensures var shown := Take(Filter(HasWarnings, results), SHOWN_WARNINGS);
      && |shown| <= SHOWN_WARNINGS
      && (forall r :: r in shown ==> r in results && HasWarnings(r))
      && (|shown| == SHOWN_WARNINGS || forall r :: r in results && HasWarnings(r) ==> r in shown)
  {
    var warned := Filter(HasWarnings, results);
    var shown := Take(warned, SHOWN_WARNINGS);
    forall r | r in shown
      ensures r in results && HasWarnings(r)
    {
      var k :| 0 <= k < |shown| && shown[k] == r;
      assert r == warned[k];
    }
    if |shown| < SHOWN_WARNINGS {
      assert shown == warned;
    }
  }

  /**
   * `validateData` without the console: validate every beach, then decide. The run fails
   * (exit code 1) iff some beach has an error; at most ten warning beaches are shown.
   */
  method ValidateAll(features: seq<Feature>)
    returns (results: seq<ValidationResult>, failed: bool, shown: seq<ValidationResult>)
    ensures |results| == |features|
    ensures forall i :: 0 <= i < |features| ==> results[i] == Validate(features[i])
    ensures failed <==> exists i :: 0 <= i < |features| && Errors(features[i]) != []
    ensures |shown| <= SHOWN_WARNINGS
    ensures forall r :: r in shown ==> r in results && HasWarnings(r)
    ensures |shown| == SHOWN_WARNINGS || forall r :: r in results && HasWarnings(r) ==> r in shown
    ensures shown == Take(Filter(HasWarnings, results), SHOWN_WARNINGS)
  {
    results := [];
    for i := 0 to |features|
      invariant |results| == i
      invariant forall k :: 0 <= k < i ==> results[k] == Validate(features[k])
    {
      var result := ValidateBeachData(features[i]);
      results := results + [result];
    }
    var beachesWithErrors := Filter(HasErrors, results);
    var beachesWithWarnings := Filter(HasWarnings, results);
    shown := Take(beachesWithWarnings, SHOWN_WARNINGS);
    failed := |beachesWithErrors| > 0;
    FailedIffSomeError(results);
    ShownWarnings(results);
    forall i | 0 <= i < |features|
      ensures HasErrors(results[i]) <==> Errors(features[i]) != []
    {
      assert results[i].errors == Errors(features[i]);
    }
  }
}
